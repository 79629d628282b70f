/**
 * The two chat protocols the proxy joins: OpenAI completion chunks and messages on one side,
 * Anthropic content blocks and the client that reassembles them on the other.
 */
module ChatProtocol {
  import opened Prelude

  // An absent, null or empty string field is "" throughout, as the translator's truth tests read it.

  datatype Usage = Usage(promptTokens: Option<int>, completionTokens: Option<int>)

  datatype ToolDelta = ToolDelta(index: Option<int>, id: string, name: string, arguments: Option<string>)

  datatype Choice = Choice(content: string, toolCalls: seq<ToolDelta>, finishReason: string)

  datatype Chunk = Chunk(usage: Option<Usage>, choices: seq<Choice>)

  datatype TokenUsage = TokenUsage(inputTokens: int, outputTokens: int)

  /** _usage_from_openai: absent usage and absent counters read as zero. */
  function UsageFromOpenAI(usage: Option<Usage>): TokenUsage {
    match usage
    case None => TokenUsage(0, 0)
    case Some(u) =>
      TokenUsage(if u.promptTokens.Some? then u.promptTokens.value else 0,
                 if u.completionTokens.Some? then u.completionTokens.value else 0)
  }

  /** _stop_reason */
  function StopReason(finishReason: string): string {
    if finishReason == "tool_calls" then "tool_use"
    else if finishReason == "length" then "max_tokens"
    else if finishReason == "" || finishReason == "stop" then "end_turn"
    else finishReason
  }

  /** An Anthropic content block; tool input is kept as its raw JSON text. */
  datatype Block = Text(text: string) | ToolUse(id: string, name: string, input: string)

  datatype BlockHead = TextHead | ToolUseHead(id: string, name: string)

  datatype Event =
    | MessageStart
    | BlockStart(index: nat, head: BlockHead)
    | TextDelta(index: nat, text: string)
    | InputJsonDelta(index: nat, partialJson: string)
    | BlockStop(index: nat)
    | MessageDelta(stopReason: string, usage: TokenUsage)
    | MessageStop

  /** A streaming client: the blocks built so far and the ones still open. */
  datatype Client = Client(
    started: bool,
    blocks: seq<Block>,
    open: set<nat>,
    outcome: Option<(string, TokenUsage)>,
    ended: bool)

  const NEW_CLIENT := Client(false, [], {}, None, false)

  function HeadBlock(head: BlockHead): Block {
    match head
    case TextHead => Text("")
    case ToolUseHead(id, name) => ToolUse(id, name, "")
  }

  predicate NoOpenText(c: Client) {
    forall i :: i in c.open ==> i < |c.blocks| && c.blocks[i].ToolUse?
  }

  /**
   * One event, or None when it breaks the protocol: starts are numbered consecutively, a text
   * block is never open together with another block, deltas go to an open block of their kind,
   * an open block stops once, and the message ends with nothing open.
   */
  function Feed(c: Client, ev: Event): Option<Client> {
    if c.ended then None
    else if !c.started then
      if ev.MessageStart? then Some(c.(started := true)) else None
    else
      match ev
      case MessageStart => None
      case BlockStart(i, head) =>
        if i == |c.blocks| && c.outcome.None?
           && (if head.TextHead? then c.open == {} else NoOpenText(c))
        then Some(c.(blocks := c.blocks + [HeadBlock(head)], open := c.open + {i}))
        else None
      case TextDelta(i, text) =>
        if i in c.open && i < |c.blocks| && c.blocks[i].Text?
        then Some(c.(blocks := c.blocks[i := Text(c.blocks[i].text + text)]))
        else None
      case InputJsonDelta(i, json) =>
        if i in c.open && i < |c.blocks| && c.blocks[i].ToolUse?
        then Some(c.(blocks := c.blocks[i := c.blocks[i].(input := c.blocks[i].input + json)]))
        else None
      case BlockStop(i) =>
        if i in c.open then Some(c.(open := c.open - {i})) else None
      case MessageDelta(reason, usage) =>
        if c.open == {} && c.outcome.None? then Some(c.(outcome := Some((reason, usage)))) else None
      case MessageStop =>
        if c.open == {} && c.outcome.Some? then Some(c.(ended := true)) else None
  }

  function FeedAll(c: Client, events: seq<Event>): Option<Client>
    decreases |events|
  {
    if events == [] then Some(c)
    else
      match Feed(c, events[0])
      case None => None
      case Some(next) => FeedAll(next, events[1..])
  }

  lemma {:induction false} FeedAllAppend(c: Client, a: seq<Event>, b: seq<Event>)
    requires FeedAll(c, a).Some?
    ensures FeedAll(c, a + b) == FeedAll(FeedAll(c, a).value, b)
    decreases |a|
  {
    if a == [] {
      assert a + b == b;
    } else {
      FeedAllAppend(Feed(c, a[0]).value, a[1..], b);
      assert (a + b)[1..] == a[1..] + b;
    }
  }

  lemma {:induction false} FeedOne(c: Client, ev: Event)
    ensures FeedAll(c, [ev]) == Feed(c, ev)
  {
    if Feed(c, ev).Some? {
      assert [ev][1..] == [];
      assert FeedAll(Feed(c, ev).value, []) == Feed(c, ev);
    }
  }

  // ---------------------------------------------------------------------------
  // The reference meaning of a chunk stream
  // ---------------------------------------------------------------------------

  /** Blocks assembled so far, whether the last one is an open text, and the open calls. */
  datatype Assembly = Assembly(
    blocks: seq<Block>,
    owners: seq<Option<int>>,  // per block: the call index that opened it, None for text
    textOpen: bool,
    calls: seq<(int, nat)>,  // open tool calls in opening order: call index, block index
    usage: Option<Usage>,
    finishReason: string)

  const EMPTY_ASSEMBLY := Assembly([], [], false, [], None, "")

  /** dict lookup in insertion order. */
  function Lookup(calls: seq<(int, nat)>, key: int): (r: Option<nat>)
    ensures r.None? <==> forall j :: 0 <= j < |calls| ==> calls[j].0 != key
    ensures r.Some? ==> exists j :: 0 <= j < |calls| && calls[j] == (key, r.value)
  {
    if calls == [] then None
    else if calls[0].0 == key then Some(calls[0].1)
    else
      var rest := Lookup(calls[1..], key);
      assert rest.Some? ==> exists j :: 0 <= j < |calls| && calls[j] == (key, rest.value) by {
        if rest.Some? {
          var j :| 0 <= j < |calls[1..]| && calls[1..][j] == (key, rest.value);
          assert calls[j + 1] == (key, rest.value);
        }
      }
      rest
  }

  /** Block i is the newest one call `key` opened. */
  predicate NewestOf(a: Assembly, key: int, i: nat)
    requires |a.owners| == |a.blocks|
  {
    i < |a.blocks| && a.owners[i] == Some(key) && forall m :: i < m < |a.owners| ==> a.owners[m] != Some(key)
  }

  predicate AssemblyOk(a: Assembly) {
    && |a.owners| == |a.blocks|
    && (forall i :: 0 <= i < |a.blocks| ==> (a.owners[i].None? <==> a.blocks[i].Text?))
    && (forall j :: 0 <= j < |a.calls| ==> NewestOf(a, a.calls[j].0, a.calls[j].1))
    && (a.textOpen ==> a.blocks != [] && a.blocks[|a.blocks| - 1].Text? && a.calls == [])
    && (forall i, j :: 0 <= i < j < |a.calls| ==> a.calls[i].0 != a.calls[j].0 && a.calls[i].1 < a.calls[j].1)
  }

  function AddText(a: Assembly, text: string): (b: Assembly)
    requires AssemblyOk(a)
    ensures AssemblyOk(b)
  {
    if a.textOpen
    then
      var last := |a.blocks| - 1;
      a.(blocks := a.blocks[last := Text(a.blocks[last].text + text)])
    else a.(blocks := a.blocks + [Text(text)], owners := a.owners + [None], textOpen := true, calls := [])
  }

  lemma {:induction false} LookupSnoc(calls: seq<(int, nat)>, key: int, i: nat)
    requires Lookup(calls, key).None?
    ensures Lookup(calls + [(key, i)], key) == Some(i)
  {
    if calls != [] {
      LookupSnoc(calls[1..], key, i);
      assert (calls + [(key, i)])[1..] == calls[1..] + [(key, i)];
    }
  }

  function OpenCall(a: Assembly, key: int, id: string, name: string): (b: Assembly)
    requires AssemblyOk(a) && Lookup(a.calls, key).None?
    ensures AssemblyOk(b) && Lookup(b.calls, key) == Some(|a.blocks|)
  {
    LookupSnoc(a.calls, key, |a.blocks|);
    a.(blocks := a.blocks + [ToolUse(id, name, "")], owners := a.owners + [Some(key)], textOpen := false,
       calls := a.calls + [(key, |a.blocks|)])
  }

  function ExtendCall(a: Assembly, key: int, json: string): (b: Assembly)
    requires AssemblyOk(a) && Lookup(a.calls, key).Some?
    ensures AssemblyOk(b) && b.calls == a.calls
  {
    var i := Lookup(a.calls, key).value;
    a.(blocks := a.blocks[i := a.blocks[i].(input := a.blocks[i].input + json)])
  }

  function ExtendIfPresent(a: Assembly, key: int, arguments: Option<string>): (b: Assembly)
    requires AssemblyOk(a) && Lookup(a.calls, key).Some?
    ensures AssemblyOk(b)
  {
    if arguments.Some? then ExtendCall(a, key, arguments.value) else a
  }

  /** None when the first delta of a call misses its index, id or name. */
  function AddTool(a: Assembly, delta: ToolDelta): (r: Option<Assembly>)
    requires AssemblyOk(a)
    ensures r.Some? ==> AssemblyOk(r.value)
    ensures r.None? <==> delta.index.None?
                         || (Lookup(a.calls, delta.index.value).None? && (delta.id == "" || delta.name == ""))
  {
    if delta.index.None? then None
    else
      var key := delta.index.value;
      if Lookup(a.calls, key).Some? then Some(ExtendIfPresent(a, key, delta.arguments))
      else if delta.id == "" || delta.name == "" then None
      else Some(ExtendIfPresent(OpenCall(a, key, delta.id, delta.name), key, delta.arguments))
  }

  function AddTools(a: Assembly, deltas: seq<ToolDelta>): (r: Option<Assembly>)
    requires AssemblyOk(a)
    ensures r.Some? ==> AssemblyOk(r.value)
    decreases |deltas|
  {
    if deltas == [] then Some(a)
    else
      match AddTool(a, deltas[0])
      case None => None
      case Some(b) => AddTools(b, deltas[1..])
  }

  function AddChoice(a: Assembly, choice: Choice): (r: Option<Assembly>)
    requires AssemblyOk(a)
    ensures r.Some? ==> AssemblyOk(r.value)
  {
    var b := if choice.content != "" then AddText(a, choice.content) else a;
    match AddTools(b, choice.toolCalls)
    case None => None
    case Some(c) => Some(if choice.finishReason != "" then c.(finishReason := choice.finishReason) else c)
  }

  function AddChoices(a: Assembly, choices: seq<Choice>): (r: Option<Assembly>)
    requires AssemblyOk(a)
    ensures r.Some? ==> AssemblyOk(r.value)
    decreases |choices|
  {
    if choices == [] then Some(a)
    else
      match AddChoice(a, choices[0])
      case None => None
      case Some(b) => AddChoices(b, choices[1..])
  }

  function AddChunk(a: Assembly, chunk: Chunk): (r: Option<Assembly>)
    requires AssemblyOk(a)
    ensures r.Some? ==> AssemblyOk(r.value)
  {
    AddChoices(if chunk.usage.Some? then a.(usage := chunk.usage) else a, chunk.choices)
  }

  function AddChunks(a: Assembly, chunks: seq<Chunk>): (r: Option<Assembly>)
    requires AssemblyOk(a)
    ensures r.Some? ==> AssemblyOk(r.value)
    decreases |chunks|
  {
    if chunks == [] then Some(a)
    else
      match AddChunk(a, chunks[0])
      case None => None
      case Some(b) => AddChunks(b, chunks[1..])
  }
}
