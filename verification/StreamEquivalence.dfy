/**
 * What the streamed blocks mean: text and per-call arguments are conserved in order, and on
 * ordinary streams the blocks, stop reason and usage are those of the non-streaming translation
 * of the accumulated OpenAI message.
 */
module StreamEquivalence {
  import opened Prelude
  import opened ChatProtocol

  // ---------------------------------------------------------------------------
  // Conservation, for every stream that does not raise
  // ---------------------------------------------------------------------------

  /** All streamed text, block after block. */
  function TextOf(blocks: seq<Block>): string {
    if blocks == [] then ""
    else TextOf(blocks[..|blocks| - 1]) + (if blocks[|blocks| - 1].Text? then blocks[|blocks| - 1].text else "")
  }

  /** All argument text of the blocks that call `key` opened, in order. */
  function ArgumentsOf(blocks: seq<Block>, owners: seq<Option<int>>, key: int): string
    requires |blocks| == |owners|
  {
    if blocks == [] then ""
    else
      var n := |blocks| - 1;
      ArgumentsOf(blocks[..n], owners[..n], key)
      + (if owners[n] == Some(key) && blocks[n].ToolUse? then blocks[n].input else "")
  }

  function DeltaArguments(delta: ToolDelta, key: int): string {
    if delta.index == Some(key) && delta.arguments.Some? then delta.arguments.value else ""
  }

  function DeltasArguments(deltas: seq<ToolDelta>, key: int): string {
    if deltas == [] then "" else DeltaArguments(deltas[0], key) + DeltasArguments(deltas[1..], key)
  }

  function ChoicesText(choices: seq<Choice>): string {
    if choices == [] then "" else choices[0].content + ChoicesText(choices[1..])
  }

  function ChoicesArguments(choices: seq<Choice>, key: int): string {
    if choices == [] then "" else DeltasArguments(choices[0].toolCalls, key) + ChoicesArguments(choices[1..], key)
  }

  function ChunksText(chunks: seq<Chunk>): string {
    if chunks == [] then "" else ChoicesText(chunks[0].choices) + ChunksText(chunks[1..])
  }

  function ChunksArguments(chunks: seq<Chunk>, key: int): string {
    if chunks == [] then "" else ChoicesArguments(chunks[0].choices, key) + ChunksArguments(chunks[1..], key)
  }

  lemma {:induction false} TextOfSnoc(blocks: seq<Block>, b: Block)
    ensures TextOf(blocks + [b]) == TextOf(blocks) + (if b.Text? then b.text else "")
  {
    assert (blocks + [b])[..|blocks|] == blocks;
  }

  lemma {:induction false} ToolUpdateKeepsText(blocks: seq<Block>, i: nat, b: Block)
    requires i < |blocks| && blocks[i].ToolUse? && b.ToolUse?
    ensures TextOf(blocks[i := b]) == TextOf(blocks)
  {
    var n := |blocks| - 1;
    if i < n {
      ToolUpdateKeepsText(blocks[..n], i, b);
      assert blocks[i := b][..n] == blocks[..n][i := b];
    } else {
      assert blocks[i := b][..n] == blocks[..n];
    }
  }

  lemma {:induction false} ArgumentsSnoc(blocks: seq<Block>, owners: seq<Option<int>>, b: Block, o: Option<int>, key: int)
    requires |blocks| == |owners|
    ensures ArgumentsOf(blocks + [b], owners + [o], key) ==
            ArgumentsOf(blocks, owners, key) + (if o == Some(key) && b.ToolUse? then b.input else "")
  {
    assert (blocks + [b])[..|blocks|] == blocks && (owners + [o])[..|owners|] == owners;
  }

  /** Extending the newest block of a call extends exactly that call's arguments, at the end. */
  lemma {:induction false} ArgumentsExtend(blocks: seq<Block>, owners: seq<Option<int>>, i: nat, b: Block, json: string,
                                           owner: Option<int>, key: int)
    requires |blocks| == |owners| && i < |blocks| && owners[i] == owner
    requires blocks[i].ToolUse? && b.ToolUse? && b.input == blocks[i].input + json
    requires forall m :: i < m < |owners| ==> owners[m] != owner
    ensures ArgumentsOf(blocks[i := b], owners, key) ==
            ArgumentsOf(blocks, owners, key) + (if owner == Some(key) then json else "")
  {
    var n := |blocks| - 1;
    var gained := if owner == Some(key) then json else "";
    if i < n {
      ArgumentsExtend(blocks[..n], owners[..n], i, b, json, owner, key);
      assert owners[n] != owner;
      ArgumentsExtendStep(blocks, owners, i, b, gained, key);
    } else {
      ArgumentsExtendLast(blocks, owners, b, json, key);
    }
  }

  lemma {:induction false} ArgumentsExtendLast(blocks: seq<Block>, owners: seq<Option<int>>, b: Block, json: string, key: int)
    requires |blocks| == |owners| > 0
    requires blocks[|blocks| - 1].ToolUse? && b.ToolUse? && b.input == blocks[|blocks| - 1].input + json
    ensures ArgumentsOf(blocks[|blocks| - 1 := b], owners, key) ==
            ArgumentsOf(blocks, owners, key) + (if owners[|blocks| - 1] == Some(key) then json else "")
  {
    var n := |blocks| - 1;
    assert blocks[n := b][..n] == blocks[..n];
  }

  lemma {:induction false} ArgumentsExtendStep(blocks: seq<Block>, owners: seq<Option<int>>, i: nat, b: Block,
                                               gained: string, key: int)
    requires |blocks| == |owners| && i < |blocks| - 1
    requires gained == "" || owners[|blocks| - 1] != Some(key)
    requires ArgumentsOf(blocks[..|blocks| - 1][i := b], owners[..|blocks| - 1], key) ==
             ArgumentsOf(blocks[..|blocks| - 1], owners[..|blocks| - 1], key) + gained
    ensures ArgumentsOf(blocks[i := b], owners, key) == ArgumentsOf(blocks, owners, key) + gained
  {
    var n := |blocks| - 1;
    assert blocks[i := b][..n] == blocks[..n][i := b];
    assert blocks[i := b][n] == blocks[n];
  }

  /** From a to b, the blocks gain exactly this text and these arguments of call `key`, at the end. */
  ghost predicate Carries(a: Assembly, b: Assembly, key: int, text: string, arguments: string)
    requires AssemblyOk(a) && AssemblyOk(b)
  {
    && TextOf(b.blocks) == TextOf(a.blocks) + text
    && ArgumentsOf(b.blocks, b.owners, key) == ArgumentsOf(a.blocks, a.owners, key) + arguments
  }

  lemma {:induction false} CarriesChain(a: Assembly, b: Assembly, c: Assembly, key: int,
                                        t1: string, x1: string, t2: string, x2: string)
    requires AssemblyOk(a) && AssemblyOk(b) && AssemblyOk(c)
    requires Carries(a, b, key, t1, x1) && Carries(b, c, key, t2, x2)
    ensures Carries(a, c, key, t1 + t2, x1 + x2)
  {
    assert TextOf(a.blocks) + t1 + t2 == TextOf(a.blocks) + (t1 + t2);
    var args := ArgumentsOf(a.blocks, a.owners, key);
    assert args + x1 + x2 == args + (x1 + x2);
  }

  lemma {:induction false} CarriesNothing(a: Assembly, key: int)
    requires AssemblyOk(a)
    ensures Carries(a, a, key, "", "")
  {
    assert TextOf(a.blocks) + "" == TextOf(a.blocks);
    assert ArgumentsOf(a.blocks, a.owners, key) + "" == ArgumentsOf(a.blocks, a.owners, key);
  }

  lemma {:induction false} TextCarries(a: Assembly, text: string, key: int)
    requires AssemblyOk(a)
    ensures Carries(a, AddText(a, text), key, text, "")
  {
    CarriesNothing(a, key);
    if a.textOpen {
      var n := |a.blocks| - 1;
      var b := a.blocks[n := Text(a.blocks[n].text + text)];
      assert b[..n] == a.blocks[..n];
      assert TextOf(a.blocks[..n]) + (a.blocks[n].text + text) == TextOf(a.blocks) + text;
    } else {
      TextOfSnoc(a.blocks, Text(text));
      ArgumentsSnoc(a.blocks, a.owners, Text(text), None, key);
    }
  }

  lemma {:induction false} ExtendCarries(a: Assembly, callKey: int, json: string, key: int)
    requires AssemblyOk(a) && Lookup(a.calls, callKey).Some?
    ensures Carries(a, ExtendCall(a, callKey, json), key, "", if callKey == key then json else "")
  {
    CarriesNothing(a, key);
    var i := Lookup(a.calls, callKey).value;
    var b := a.blocks[i].(input := a.blocks[i].input + json);
    ToolUpdateKeepsText(a.blocks, i, b);
    ArgumentsExtend(a.blocks, a.owners, i, b, json, Some(callKey), key);
  }

  lemma {:induction false} OpenCarries(a: Assembly, callKey: int, id: string, name: string, key: int)
    requires AssemblyOk(a) && Lookup(a.calls, callKey).None?
    ensures Carries(a, OpenCall(a, callKey, id, name), key, "", "")
  {
    CarriesNothing(a, key);
    TextOfSnoc(a.blocks, ToolUse(id, name, ""));
    ArgumentsSnoc(a.blocks, a.owners, ToolUse(id, name, ""), Some(callKey), key);
  }

  lemma {:induction false} ToolCarries(a: Assembly, delta: ToolDelta, key: int)
    requires AssemblyOk(a) && AddTool(a, delta).Some?
    ensures Carries(a, AddTool(a, delta).value, key, "", DeltaArguments(delta, key))
  {
    var callKey := delta.index.value;
    if Lookup(a.calls, callKey).None? {
      var b := OpenCall(a, callKey, delta.id, delta.name);
      OpenCarries(a, callKey, delta.id, delta.name, key);
      ArgumentsCarry(a, b, callKey, delta.arguments, key);
    } else {
      CarriesNothing(a, key);
      ArgumentsCarry(a, a, callKey, delta.arguments, key);
    }
  }

  /** The argument fragment of a delta, after its call has been opened or found. */
  lemma {:induction false} ArgumentsCarry(a: Assembly, b: Assembly, callKey: int, arguments: Option<string>, key: int)
    requires AssemblyOk(a) && AssemblyOk(b) && Lookup(b.calls, callKey).Some? && Carries(a, b, key, "", "")
    ensures Carries(a, ExtendIfPresent(b, callKey, arguments), key, "",
                    if callKey == key && arguments.Some? then arguments.value else "")
  {
    if arguments.Some? {
      ExtendCarries(b, callKey, arguments.value, key);
      var gained := if callKey == key then arguments.value else "";
      CarriesChain(a, b, ExtendCall(b, callKey, arguments.value), key, "", "", "", gained);
      assert "" + gained == gained;
    }
  }

  lemma {:induction false} ToolsCarry(a: Assembly, deltas: seq<ToolDelta>, key: int)
    requires AssemblyOk(a) && AddTools(a, deltas).Some?
    ensures Carries(a, AddTools(a, deltas).value, key, "", DeltasArguments(deltas, key))
    decreases |deltas|
  {
    if deltas == [] {
      CarriesNothing(a, key);
    } else {
      var b := AddTool(a, deltas[0]).value;
      ToolCarries(a, deltas[0], key);
      ToolsCarry(b, deltas[1..], key);
      CarriesChain(a, b, AddTools(b, deltas[1..]).value, key,
                   "", DeltaArguments(deltas[0], key), "", DeltasArguments(deltas[1..], key));
    }
  }

  lemma {:induction false} ChoiceCarries(a: Assembly, choice: Choice, key: int)
    requires AssemblyOk(a) && AddChoice(a, choice).Some?
    ensures Carries(a, AddChoice(a, choice).value, key, choice.content, DeltasArguments(choice.toolCalls, key))
  {
    var b := if choice.content != "" then AddText(a, choice.content) else a;
    if choice.content != "" {
      TextCarries(a, choice.content, key);
    } else {
      CarriesNothing(a, key);
    }
    ToolsCarry(b, choice.toolCalls, key);
    var arguments := DeltasArguments(choice.toolCalls, key);
    CarriesChain(a, b, AddTools(b, choice.toolCalls).value, key, choice.content, "", "", arguments);
    assert choice.content + "" == choice.content && "" + arguments == arguments;
  }

  lemma {:induction false} ChoicesCarry(a: Assembly, choices: seq<Choice>, key: int)
    requires AssemblyOk(a) && AddChoices(a, choices).Some?
    ensures Carries(a, AddChoices(a, choices).value, key, ChoicesText(choices), ChoicesArguments(choices, key))
    decreases |choices|
  {
    if choices == [] {
      CarriesNothing(a, key);
    } else {
      var b := AddChoice(a, choices[0]).value;
      ChoiceCarries(a, choices[0], key);
      ChoicesCarry(b, choices[1..], key);
      CarriesChain(a, b, AddChoices(b, choices[1..]).value, key,
                   choices[0].content, DeltasArguments(choices[0].toolCalls, key),
                   ChoicesText(choices[1..]), ChoicesArguments(choices[1..], key));
    }
  }

  lemma {:induction false} ChunkCarries(a: Assembly, chunk: Chunk, key: int)
    requires AssemblyOk(a) && AddChunk(a, chunk).Some?
    ensures Carries(a, AddChunk(a, chunk).value, key, ChoicesText(chunk.choices), ChoicesArguments(chunk.choices, key))
  {
    ChoicesCarry(if chunk.usage.Some? then a.(usage := chunk.usage) else a, chunk.choices, key);
  }

  /** Whatever the interleaving, the blocks carry all text and all of each call's arguments in order. */
  lemma {:induction false} StreamConserves(a: Assembly, chunks: seq<Chunk>, key: int)
    requires AssemblyOk(a) && AddChunks(a, chunks).Some?
    ensures Carries(a, AddChunks(a, chunks).value, key, ChunksText(chunks), ChunksArguments(chunks, key))
    decreases |chunks|
  {
    if chunks == [] {
      CarriesNothing(a, key);
    } else {
      var b := AddChunk(a, chunks[0]).value;
      ChunkCarries(a, chunks[0], key);
      StreamConserves(b, chunks[1..], key);
      CarriesChain(a, b, AddChunks(b, chunks[1..]).value, key,
                   ChoicesText(chunks[0].choices), ChoicesArguments(chunks[0].choices, key),
                   ChunksText(chunks[1..]), ChunksArguments(chunks[1..], key));
    }
  }

  // ---------------------------------------------------------------------------
  // The non-streaming sibling
  // ---------------------------------------------------------------------------

  datatype ToolCall = ToolCall(index: int, id: string, name: string, arguments: string)

  /** A chat completion as the non-streaming endpoint returns it. */
  datatype Message = Message(content: string, toolCalls: seq<ToolCall>, finishReason: string, usage: Option<Usage>)

  datatype Translated = Translated(content: seq<Block>, stopReason: string, usage: TokenUsage)

  /** The tool_calls loop of openai_chat_response_to_anthropic. */
  function ToolBlocks(calls: seq<ToolCall>): Option<seq<Block>> {
    if calls == [] then Some([])
    else if calls[0].id == "" || calls[0].name == "" then None
    else
      match ToolBlocks(calls[1..])
      case None => None
      case Some(rest) =>
        Some([ToolUse(calls[0].id, calls[0].name, if calls[0].arguments == "" then "{}" else calls[0].arguments)] + rest)
  }

  /** openai_chat_response_to_anthropic, tool input kept as raw JSON text. */
  function TranslateResponse(m: Message): Option<Translated> {
    match ToolBlocks(m.toolCalls)
    case None => None
    case Some(tools) =>
      Some(Translated((if m.content != "" then [Text(m.content)] else []) + tools,
                      StopReason(m.finishReason), UsageFromOpenAI(m.usage)))
  }

  /** The same reading of an empty argument text on the streamed side. */
  function EmptyInputAsObject(blocks: seq<Block>): seq<Block> {
    seq(|blocks|, i requires 0 <= i < |blocks| =>
      if blocks[i].ToolUse? && blocks[i].input == "" then blocks[i].(input := "{}") else blocks[i])
  }

  // The accumulated message of a chunk stream: a call is recorded by its first delta, at its
  // index's place, and later deltas append arguments.

  function Position(calls: seq<ToolCall>, index: int): (p: nat)
    ensures p <= |calls|
    ensures forall j :: 0 <= j < p ==> calls[j].index < index
    ensures p < |calls| ==> index <= calls[p].index
  {
    if calls == [] || index <= calls[0].index then 0 else 1 + Position(calls[1..], index)
  }

  function AccumulateDelta(calls: seq<ToolCall>, delta: ToolDelta): seq<ToolCall> {
    if delta.index.None? then calls
    else
      var index := delta.index.value;
      var args := if delta.arguments.Some? then delta.arguments.value else "";
      var p := Position(calls, index);
      if p < |calls| && calls[p].index == index
      then calls[p := calls[p].(arguments := calls[p].arguments + args)]
      else calls[..p] + [ToolCall(index, delta.id, delta.name, args)] + calls[p..]
  }

  function AccumulateDeltas(calls: seq<ToolCall>, deltas: seq<ToolDelta>): seq<ToolCall>
    decreases |deltas|
  {
    if deltas == [] then calls else AccumulateDeltas(AccumulateDelta(calls, deltas[0]), deltas[1..])
  }

  function AccumulateChoice(m: Message, choice: Choice): Message {
    m.(content := m.content + choice.content,
       toolCalls := AccumulateDeltas(m.toolCalls, choice.toolCalls),
       finishReason := if choice.finishReason != "" then choice.finishReason else m.finishReason)
  }

  function AccumulateChunk(m: Message, chunk: Chunk): Message
    requires |chunk.choices| <= 1
  {
    var m1 := if chunk.usage.Some? then m.(usage := chunk.usage) else m;
    if chunk.choices == [] then m1 else AccumulateChoice(m1, chunk.choices[0])
  }

  function AccumulateChunks(m: Message, chunks: seq<Chunk>): Message
    requires forall c :: c in chunks ==> |c.choices| <= 1
    decreases |chunks|
  {
    if chunks == [] then m else AccumulateChunks(AccumulateChunk(m, chunks[0]), chunks[1..])
  }

  // An ordinary stream: one choice a chunk, no text after a tool delta, every tool delta carries
  // its index, and a new index is above all earlier ones.

  predicate OrdinaryDelta(calls: seq<ToolCall>, delta: ToolDelta) {
    && delta.index.Some?
    && ((exists j :: 0 <= j < |calls| && calls[j].index == delta.index.value)
        || forall j :: 0 <= j < |calls| ==> calls[j].index < delta.index.value)
  }

  predicate OrdinaryDeltas(calls: seq<ToolCall>, deltas: seq<ToolDelta>)
    decreases |deltas|
  {
    deltas == [] || (OrdinaryDelta(calls, deltas[0]) && OrdinaryDeltas(AccumulateDelta(calls, deltas[0]), deltas[1..]))
  }

  predicate OrdinaryChunk(m: Message, chunk: Chunk) {
    && |chunk.choices| <= 1
    && (chunk.choices != [] ==>
          && (chunk.choices[0].content != "" ==> m.toolCalls == [])
          && OrdinaryDeltas(m.toolCalls, chunk.choices[0].toolCalls))
  }

  predicate Ordinary(m: Message, chunks: seq<Chunk>)
    decreases |chunks|
  {
    chunks == [] || (OrdinaryChunk(m, chunks[0]) && Ordinary(AccumulateChunk(m, chunks[0]), chunks[1..]))
  }

  // ---------------------------------------------------------------------------
  // Agreement on ordinary streams
  // ---------------------------------------------------------------------------

  /** Every recorded call has an id and a name. */
  predicate Intact(calls: seq<ToolCall>) {
    forall j :: 0 <= j < |calls| ==> calls[j].id != "" && calls[j].name != ""
  }

  predicate Ascending(calls: seq<ToolCall>) {
    forall i, j :: 0 <= i < j < |calls| ==> calls[i].index < calls[j].index
  }

  function CallBlock(call: ToolCall): Block {
    ToolUse(call.id, call.name, call.arguments)
  }

  function CallBlocks(calls: seq<ToolCall>): seq<Block> {
    seq(|calls|, i requires 0 <= i < |calls| => CallBlock(calls[i]))
  }

  function TextPart(content: string): seq<Block> {
    if content != "" then [Text(content)] else []
  }

  /** The open calls of an assembly that mirrors a message: one per tool call, in order. */
  predicate CallsMirror(a: Assembly, content: string, calls: seq<ToolCall>) {
    && |a.calls| == |calls|
    && forall j :: 0 <= j < |calls| ==> a.calls[j] == (calls[j].index, |TextPart(content)| + j)
  }

  /** The assembly holds the message: its text first, then one block per tool call. */
  predicate Mirrors(a: Assembly, m: Message) {
    AssemblyOk(a) && Holds(a, m)
  }

  predicate Holds(a: Assembly, m: Message) {
    && a.usage == m.usage && a.finishReason == m.finishReason
    && Ascending(m.toolCalls) && Intact(m.toolCalls)
    && a.blocks == TextPart(m.content) + CallBlocks(m.toolCalls)
    && CallsMirror(a, m.content, m.toolCalls)
    && (a.textOpen <==> m.toolCalls == [] && m.content != "")
  }

  lemma {:induction false} LookupAt(calls: seq<(int, nat)>, j: nat)
    requires j < |calls| && forall i, k :: 0 <= i < k < |calls| ==> calls[i].0 != calls[k].0
    ensures Lookup(calls, calls[j].0) == Some(calls[j].1)
  {
    if j > 0 {
      assert calls[0].0 != calls[j].0;
      LookupAt(calls[1..], j - 1);
    }
  }

  lemma {:induction false} KnownCallPlace(calls: seq<ToolCall>, p: nat)
    requires Ascending(calls) && p < |calls|
    ensures Position(calls, calls[p].index) == p
  {
  }

  lemma {:induction false} NewCallPlace(calls: seq<ToolCall>, index: int)
    requires forall j :: 0 <= j < |calls| ==> calls[j].index < index
    ensures Position(calls, index) == |calls|
  {
  }

  lemma {:induction false} GrownCallHeld(a: Assembly, b: Assembly, m: Message, p: nat, json: string)
    requires Holds(a, m) && p < |m.toolCalls|
    requires |TextPart(m.content)| + p < |a.blocks|
    requires b == a.(blocks := a.blocks[|TextPart(m.content)| + p :=
                     ToolUse(m.toolCalls[p].id, m.toolCalls[p].name, m.toolCalls[p].arguments + json)])
    ensures Holds(b, m.(toolCalls := m.toolCalls[p := m.toolCalls[p].(arguments := m.toolCalls[p].arguments + json)]))
  {
    var calls, n := m.toolCalls, |TextPart(m.content)|;
    var call := calls[p].(arguments := calls[p].arguments + json);
    assert CallBlocks(calls[p := call]) == CallBlocks(calls)[p := CallBlock(call)];
    assert b.blocks == TextPart(m.content) + CallBlocks(calls)[p := CallBlock(call)];
  }

  lemma {:induction false} NewCallHeld(a: Assembly, b: Assembly, m: Message, call: ToolCall)
    requires Holds(a, m) && call.id != "" && call.name != ""
    requires forall j :: 0 <= j < |m.toolCalls| ==> m.toolCalls[j].index < call.index
    requires b.blocks == a.blocks + [CallBlock(call)] && b.calls == a.calls + [(call.index, |a.blocks|)]
    requires !b.textOpen && b.usage == a.usage && b.finishReason == a.finishReason
    ensures Holds(b, m.(toolCalls := m.toolCalls + [call]))
  {
    assert CallBlocks(m.toolCalls + [call]) == CallBlocks(m.toolCalls) + [CallBlock(call)];
    assert b.blocks == TextPart(m.content) + CallBlocks(m.toolCalls + [call]);
  }

  lemma {:induction false} KnownDeltaMirrors(a: Assembly, m: Message, delta: ToolDelta, p: nat)
    requires Mirrors(a, m) && p < |m.toolCalls| && delta.index == Some(m.toolCalls[p].index)
    ensures AddTool(a, delta).Some?
    ensures Mirrors(AddTool(a, delta).value, m.(toolCalls := AccumulateDelta(m.toolCalls, delta)))
  {
    KnownDeltaAccumulates(m.toolCalls, delta, p);
    KnownDeltaAdds(a, m, delta, p);
    if delta.arguments.Some? {
      KnownCallGrows(a, m, p, delta.arguments.value);
    }
  }

  lemma {:induction false} KnownDeltaAccumulates(calls: seq<ToolCall>, delta: ToolDelta, p: nat)
    requires Ascending(calls) && p < |calls| && delta.index == Some(calls[p].index)
    ensures AccumulateDelta(calls, delta) ==
            if delta.arguments.None? then calls
            else calls[p := calls[p].(arguments := calls[p].arguments + delta.arguments.value)]
  {
    KnownCallPlace(calls, p);
    assert calls[p].arguments + "" == calls[p].arguments;
  }

  lemma {:induction false} KnownDeltaAdds(a: Assembly, m: Message, delta: ToolDelta, p: nat)
    requires Mirrors(a, m) && p < |m.toolCalls| && delta.index == Some(m.toolCalls[p].index)
    ensures Lookup(a.calls, m.toolCalls[p].index) == Some(|TextPart(m.content)| + p)
    ensures AddTool(a, delta) ==
            Some(if delta.arguments.None? then a else ExtendCall(a, m.toolCalls[p].index, delta.arguments.value))
  {
    LookupAt(a.calls, p);
  }

  lemma {:induction false} KnownCallGrows(a: Assembly, m: Message, p: nat, json: string)
    requires Mirrors(a, m) && p < |m.toolCalls|
    requires Lookup(a.calls, m.toolCalls[p].index) == Some(|TextPart(m.content)| + p)
    ensures Holds(ExtendCall(a, m.toolCalls[p].index, json),
                  m.(toolCalls := m.toolCalls[p := m.toolCalls[p].(arguments := m.toolCalls[p].arguments + json)]))
  {
    var front := TextPart(m.content);
    assert a.blocks[|front| + p] == CallBlock(m.toolCalls[p]);
    GrownCallHeld(a, ExtendCall(a, m.toolCalls[p].index, json), m, p, json);
  }

  lemma {:induction false} AccumulateNew(calls: seq<ToolCall>, delta: ToolDelta, call: ToolCall)
    requires Records(call, delta)
    requires forall j :: 0 <= j < |calls| ==> calls[j].index < call.index
    ensures AccumulateDelta(calls, delta) == calls + [call]
  {
    NewCallPlace(calls, call.index);
    assert calls[..|calls|] == calls && calls[|calls|..] == [];
  }

  /** What the first delta of a call records. */
  predicate Records(call: ToolCall, delta: ToolDelta) {
    && delta.index == Some(call.index) && call.id == delta.id && call.name == delta.name
    && call.arguments == if delta.arguments.Some? then delta.arguments.value else ""
  }

  lemma {:induction false} OpenedBlocks(a: Assembly, delta: ToolDelta, call: ToolCall)
    requires AssemblyOk(a) && Records(call, delta)
    requires Lookup(a.calls, call.index).None? && delta.id != "" && delta.name != ""
    ensures AddTool(a, delta).Some?
    ensures var b := AddTool(a, delta).value;
            && b.blocks == a.blocks + [CallBlock(call)]
            && b.calls == a.calls + [(call.index, |a.blocks|)]
            && !b.textOpen && b.usage == a.usage && b.finishReason == a.finishReason
  {
    var bare := OpenCall(a, call.index, call.id, call.name);
    if delta.arguments.Some? {
      assert AddTool(a, delta) == Some(ExtendCall(bare, call.index, call.arguments));
      OpenedAndExtended(a, call);
    } else {
      assert AddTool(a, delta) == Some(bare);
    }
  }

  lemma {:induction false} OpenedAndExtended(a: Assembly, call: ToolCall)
    requires AssemblyOk(a) && Lookup(a.calls, call.index).None?
    ensures var bare := OpenCall(a, call.index, call.id, call.name);
            && Lookup(bare.calls, call.index).Some? && AssemblyOk(bare)
            && ExtendCall(bare, call.index, call.arguments) == bare.(blocks := a.blocks + [CallBlock(call)])
  {
    var bare := OpenCall(a, call.index, call.id, call.name);
    var n := |a.blocks|;
    LookupSnoc(a.calls, call.index, n);
    assert "" + call.arguments == call.arguments;
    assert bare.blocks[n].(input := "" + call.arguments) == CallBlock(call);
    assert bare.blocks[n := CallBlock(call)] == a.blocks + [CallBlock(call)];
  }

  lemma {:induction false} NewDeltaMirrors(a: Assembly, m: Message, delta: ToolDelta, call: ToolCall)
    requires Mirrors(a, m) && Records(call, delta)
    requires forall j :: 0 <= j < |m.toolCalls| ==> m.toolCalls[j].index < call.index
    ensures AddTool(a, delta).None? ==> !Intact(AccumulateDelta(m.toolCalls, delta))
    ensures AddTool(a, delta).Some? ==>
              Mirrors(AddTool(a, delta).value, m.(toolCalls := AccumulateDelta(m.toolCalls, delta)))
  {
    AccumulateNew(m.toolCalls, delta, call);
    assert Lookup(a.calls, call.index).None?;
    if delta.id == "" || delta.name == "" {
      assert (m.toolCalls + [call])[|m.toolCalls|] == call;
    } else {
      OpenedBlocks(a, delta, call);
      NewCallHeld(a, AddTool(a, delta).value, m, call);
    }
  }

  lemma {:induction false} BrokenStays(calls: seq<ToolCall>, delta: ToolDelta)
    requires !Intact(calls)
    ensures !Intact(AccumulateDelta(calls, delta))
  {
    if delta.index.Some? {
      var j :| 0 <= j < |calls| && !(calls[j].id != "" && calls[j].name != "");
      var p := Position(calls, delta.index.value);
      var after := AccumulateDelta(calls, delta);
      if p < |calls| && calls[p].index == delta.index.value {
        assert after[j].id == calls[j].id && after[j].name == calls[j].name;
      } else {
        var k := if j < p then j else j + 1;
        assert after[k] == calls[j];
      }
    }
  }

  lemma {:induction false} BrokenStaysAll(calls: seq<ToolCall>, deltas: seq<ToolDelta>)
    requires !Intact(calls)
    ensures !Intact(AccumulateDeltas(calls, deltas))
    decreases |deltas|
  {
    if deltas != [] {
      BrokenStays(calls, deltas[0]);
      BrokenStaysAll(AccumulateDelta(calls, deltas[0]), deltas[1..]);
    }
  }

  lemma {:induction false} BrokenStaysForever(m: Message, chunks: seq<Chunk>)
    requires !Intact(m.toolCalls) && forall c :: c in chunks ==> |c.choices| <= 1
    ensures !Intact(AccumulateChunks(m, chunks).toolCalls)
    decreases |chunks|
  {
    if chunks != [] {
      if chunks[0].choices != [] {
        BrokenStaysAll(m.toolCalls, chunks[0].choices[0].toolCalls);
      }
      BrokenStaysForever(AccumulateChunk(m, chunks[0]), chunks[1..]);
    }
  }

  lemma {:induction false} DeltasMirror(a: Assembly, m: Message, deltas: seq<ToolDelta>)
    requires Mirrors(a, m) && OrdinaryDeltas(m.toolCalls, deltas)
    ensures AddTools(a, deltas).None? ==> !Intact(AccumulateDeltas(m.toolCalls, deltas))
    ensures AddTools(a, deltas).Some? ==>
              Mirrors(AddTools(a, deltas).value, m.(toolCalls := AccumulateDeltas(m.toolCalls, deltas)))
    decreases |deltas|
  {
    if deltas != [] {
      var delta := deltas[0];
      if p :| 0 <= p < |m.toolCalls| && m.toolCalls[p].index == delta.index.value {
        KnownDeltaMirrors(a, m, delta, p);
      } else {
        NewDeltaMirrors(a, m, delta, ToolCall(delta.index.value, delta.id, delta.name,
                                              if delta.arguments.Some? then delta.arguments.value else ""));
      }
      var after := AccumulateDelta(m.toolCalls, delta);
      if AddTool(a, delta).None? {
        BrokenStaysAll(after, deltas[1..]);
      } else {
        DeltasMirror(AddTool(a, delta).value, m.(toolCalls := after), deltas[1..]);
      }
    }
  }

  lemma {:induction false} TextMirrors(a: Assembly, m: Message, text: string)
    requires Mirrors(a, m) && text != "" && m.toolCalls == []
    ensures Mirrors(AddText(a, text), m.(content := m.content + text))
  {
    assert CallBlocks([]) == [];
    assert a.blocks == TextPart(m.content) && a.calls == [];
    var b := AddText(a, text);
    if m.content == "" {
      assert m.content + text == text;
      assert b.blocks == [Text(text)];
    } else {
      assert b.blocks == [Text(m.content + text)];
    }
  }

  lemma {:induction false} FinishMirrors(a: Assembly, m: Message, reason: string)
    requires Mirrors(a, m)
    ensures AssemblyOk(a.(finishReason := reason)) && Mirrors(a.(finishReason := reason), m.(finishReason := reason))
  {
  }

  lemma {:induction false} ChoiceMirrors(a: Assembly, m: Message, choice: Choice)
    requires Mirrors(a, m) && (choice.content != "" ==> m.toolCalls == [])
    requires OrdinaryDeltas(m.toolCalls, choice.toolCalls)
    ensures AddChoice(a, choice).None? ==> !Intact(AccumulateDeltas(m.toolCalls, choice.toolCalls))
    ensures AddChoice(a, choice).Some? ==> Mirrors(AddChoice(a, choice).value, AccumulateChoice(m, choice))
  {
    var a2 := if choice.content != "" then AddText(a, choice.content) else a;
    if choice.content != "" {
      TextMirrors(a, m, choice.content);
    } else {
      assert m.content + "" == m.content;
    }
    var m2 := m.(content := m.content + choice.content);
    DeltasMirror(a2, m2, choice.toolCalls);
    if AddTools(a2, choice.toolCalls).Some? && choice.finishReason != "" {
      FinishMirrors(AddTools(a2, choice.toolCalls).value,
                    m2.(toolCalls := AccumulateDeltas(m.toolCalls, choice.toolCalls)), choice.finishReason);
    }
  }

  lemma {:induction false} OnlyChoice(a: Assembly, choices: seq<Choice>)
    requires AssemblyOk(a) && |choices| == 1
    ensures AddChoices(a, choices) == AddChoice(a, choices[0])
  {
    assert choices[1..] == [];
  }

  lemma {:induction false} UsageMirrors(a: Assembly, m: Message, usage: Option<Usage>)
    requires Mirrors(a, m)
    ensures AssemblyOk(a.(usage := usage)) && Mirrors(a.(usage := usage), m.(usage := usage))
  {
  }

  lemma {:induction false} ChoicesMirror(a: Assembly, m: Message, choices: seq<Choice>)
    requires Mirrors(a, m) && OrdinaryChunk(m, Chunk(None, choices))
    ensures var after := AccumulateChunk(m, Chunk(None, choices));
            && (AddChoices(a, choices).None? ==> !Intact(after.toolCalls))
            && (AddChoices(a, choices).Some? ==> Mirrors(AddChoices(a, choices).value, after))
  {
    if choices != [] {
      ChoiceMirrors(a, m, choices[0]);
      OnlyChoice(a, choices);
    }
  }

  lemma {:induction false} ChunkMirrors(a: Assembly, m: Message, chunk: Chunk)
    requires Mirrors(a, m) && OrdinaryChunk(m, chunk)
    ensures AddChunk(a, chunk).None? ==> !Intact(AccumulateChunk(m, chunk).toolCalls)
    ensures AddChunk(a, chunk).Some? ==> Mirrors(AddChunk(a, chunk).value, AccumulateChunk(m, chunk))
  {
    if chunk.usage.Some? {
      UsageMirrors(a, m, chunk.usage);
      ChoicesMirror(a.(usage := chunk.usage), m.(usage := chunk.usage), chunk.choices);
    } else {
      ChoicesMirror(a, m, chunk.choices);
    }
  }

  lemma {:induction false} OrdinaryHasSingleChoices(m: Message, chunks: seq<Chunk>)
    requires Ordinary(m, chunks)
    ensures forall c :: c in chunks ==> |c.choices| <= 1
    decreases |chunks|
  {
    if chunks != [] {
      OrdinaryHasSingleChoices(AccumulateChunk(m, chunks[0]), chunks[1..]);
      assert chunks == [chunks[0]] + chunks[1..];
    }
  }

  lemma {:induction false} StreamMirrors(a: Assembly, m: Message, chunks: seq<Chunk>)
    requires Mirrors(a, m) && Ordinary(m, chunks)
    requires forall c :: c in chunks ==> |c.choices| <= 1
    ensures AddChunks(a, chunks).None? ==> !Intact(AccumulateChunks(m, chunks).toolCalls)
    ensures AddChunks(a, chunks).Some? ==> Mirrors(AddChunks(a, chunks).value, AccumulateChunks(m, chunks))
    decreases |chunks|
  {
    if chunks != [] {
      ChunkMirrors(a, m, chunks[0]);
      if AddChunk(a, chunks[0]).None? {
        BrokenStaysForever(AccumulateChunk(m, chunks[0]), chunks[1..]);
      } else {
        StreamMirrors(AddChunk(a, chunks[0]).value, AccumulateChunk(m, chunks[0]), chunks[1..]);
      }
    }
  }

  lemma {:induction false} ToolBlocksAre(calls: seq<ToolCall>)
    ensures ToolBlocks(calls).Some? <==> Intact(calls)
    ensures ToolBlocks(calls).Some? ==> ToolBlocks(calls).value == EmptyInputAsObject(CallBlocks(calls))
  {
    if calls != [] {
      ToolBlocksAre(calls[1..]);
      assert Intact(calls[1..]) ==> forall j :: 1 <= j < |calls| ==> calls[j] == calls[1..][j - 1];
      assert Intact(calls) ==> forall j :: 0 <= j < |calls[1..]| ==> calls[1..][j] == calls[j + 1];
      assert EmptyInputAsObject(CallBlocks(calls)) ==
             [EmptyInputAsObject(CallBlocks(calls))[0]] + EmptyInputAsObject(CallBlocks(calls[1..]));
    }
  }

  const EMPTY_MESSAGE := Message("", [], "", None)

  /**
   * On every ordinary stream the two translations agree: both fail, or the streamed blocks with
   * empty input read as {} are the translated content, with the same stop reason and usage.
   */
  lemma {:induction false} StreamingAgrees(chunks: seq<Chunk>)
    requires Ordinary(EMPTY_MESSAGE, chunks)
    ensures forall c :: c in chunks ==> |c.choices| <= 1
    ensures var a := AddChunks(EMPTY_ASSEMBLY, chunks);
            var t := TranslateResponse(AccumulateChunks(EMPTY_MESSAGE, chunks));
            && (a.None? <==> t.None?)
            && (a.Some? ==> t.value == Translated(EmptyInputAsObject(a.value.blocks),
                                                  StopReason(a.value.finishReason), UsageFromOpenAI(a.value.usage)))
  {
    OrdinaryHasSingleChoices(EMPTY_MESSAGE, chunks);
    assert Mirrors(EMPTY_ASSEMBLY, EMPTY_MESSAGE);
    StreamMirrors(EMPTY_ASSEMBLY, EMPTY_MESSAGE, chunks);
    var m := AccumulateChunks(EMPTY_MESSAGE, chunks);
    ToolBlocksAre(m.toolCalls);
    if AddChunks(EMPTY_ASSEMBLY, chunks).Some? {
      TextKeepsShape(m.content, m.toolCalls);
    }
  }

  lemma {:induction false} TextKeepsShape(content: string, calls: seq<ToolCall>)
    ensures EmptyInputAsObject(TextPart(content) + CallBlocks(calls)) ==
            TextPart(content) + EmptyInputAsObject(CallBlocks(calls))
  {
  }
}
