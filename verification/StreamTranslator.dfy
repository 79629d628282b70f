/**
 * The stateful translator from OpenAI stream chunks to Anthropic events.  A ghost client reads
 * every event it emits: the events are never rejected, and the client's blocks are exactly the
 * reference assembly of the chunks.
 */
module StreamTranslator {
  import opened Prelude
  import opened ChatProtocol
  import opened StreamReport

  function Indexes(calls: seq<(int, nat)>): set<nat> {
    if calls == [] then {} else {calls[0].1} + Indexes(calls[1..])
  }

  lemma {:induction false} IndexesAre(calls: seq<(int, nat)>)
    ensures forall j :: 0 <= j < |calls| ==> calls[j].1 in Indexes(calls)
    ensures forall i :: i in Indexes(calls) ==> exists j :: 0 <= j < |calls| && calls[j].1 == i
  {
    if calls != [] {
      IndexesAre(calls[1..]);
      assert forall j :: 0 < j < |calls| ==> calls[j] == calls[1..][j - 1];
      forall i | i in Indexes(calls) ensures exists j :: 0 <= j < |calls| && calls[j].1 == i {
        if i == calls[0].1 {
          assert calls[0].1 == i;
        } else {
          var j :| 0 <= j < |calls[1..]| && calls[1..][j].1 == i;
          assert calls[j + 1].1 == i;
        }
      }
    }
  }

  lemma {:induction false} IndexesSnoc(calls: seq<(int, nat)>, call: (int, nat))
    ensures Indexes(calls + [call]) == Indexes(calls) + {call.1}
  {
    if calls == [] {
      assert calls + [call] == [call] && [call][1..] == [];
    } else {
      IndexesSnoc(calls[1..], call);
      assert (calls + [call])[1..] == calls[1..] + [call];
    }
  }

  function Stops(calls: seq<(int, nat)>): seq<Event> {
    if calls == [] then [] else [BlockStop(calls[0].1)] + Stops(calls[1..])
  }

  /** Stopping every open tool block is accepted and leaves nothing open. */
  lemma {:induction false} StopsAccepted(c: Client, calls: seq<(int, nat)>)
    requires c.started && !c.ended && c.open == Indexes(calls)
    requires forall i, j :: 0 <= i < j < |calls| ==> calls[i].1 < calls[j].1
    ensures FeedAll(c, Stops(calls)) == Some(c.(open := {}))
    decreases |calls|
  {
    if calls != [] {
      var next := c.(open := c.open - {calls[0].1});
      IndexesAre(calls[1..]);
      assert forall j :: 0 < j < |calls| ==> calls[j] == calls[1..][j - 1];
      assert next.open == Indexes(calls[1..]);
      StopsAccepted(next, calls[1..]);
      assert Stops(calls)[1..] == Stops(calls[1..]);
    } else {
      assert c == c.(open := {});
    }
  }

  /** With only tool blocks open, the next tool block may start. */
  lemma {:induction false} StartToolAccepted(c: Client, calls: seq<(int, nat)>, callIndex: int, id: string, name: string)
    requires c.started && !c.ended && c.outcome.None? && c.open == Indexes(calls)
    requires forall j :: 0 <= j < |calls| ==> calls[j].1 < |c.blocks| && c.blocks[calls[j].1].ToolUse?
    ensures FeedAll(c, [BlockStart(|c.blocks|, ToolUseHead(id, name))]) ==
            Some(c.(blocks := c.blocks + [ToolUse(id, name, "")], open := Indexes(calls + [(callIndex, |c.blocks|)])))
  {
    IndexesAre(calls);
    IndexesSnoc(calls, (callIndex, |c.blocks|));
    FeedOne(c, BlockStart(|c.blocks|, ToolUseHead(id, name)));
  }

  class Translator {
    var nextIndex: nat
    var textIndex: Option<nat>
    var toolIndexes: seq<(int, nat)>  // a dict: call index -> block index, in insertion order
    var usage: Option<Usage>
    var finishReason: string
    ghost var owners: seq<Option<int>>  // per emitted block, the call index that opened it
    ghost var client: Client          // what the client has built from the events so far

    ghost function Assembled(): Assembly
      reads this
    {
      Assembly(client.blocks, owners, textIndex.Some?, toolIndexes, usage, finishReason)
    }

    ghost predicate Valid()
      reads this
    {
      && client.started && !client.ended && client.outcome.None?
      && nextIndex == |client.blocks|
      && AssemblyOk(Assembled())
      && (textIndex.Some? ==> textIndex.value + 1 == nextIndex)
      && client.open == (if textIndex.Some? then {textIndex.value} else {}) + Indexes(toolIndexes)
    }

    constructor ()
      ensures nextIndex == 0 && textIndex.None? && toolIndexes == [] && usage.None? && finishReason == ""
      ensures client == NEW_CLIENT && owners == []
    {
      nextIndex, textIndex, toolIndexes, usage, finishReason := 0, None, [], None, "";
      client, owners := NEW_CLIENT, [];
    }

    method StartEvents() returns (events: seq<Event>)
      requires client == NEW_CLIENT && owners == [] && nextIndex == 0 && textIndex.None? && toolIndexes == []
      modifies this`client
      ensures Valid() && FeedAll(old(client), events) == Some(client)
      ensures Assembled() == Assembly([], old(owners), false, [], old(usage), old(finishReason))
    {
      events := [MessageStart];
      FeedOne(client, MessageStart);
      client := client.(started := true);
    }

    /** The ghost client reads one accepted event. */
    ghost method Read(before: Client, events: seq<Event>, ev: Event)
      requires FeedAll(before, events) == Some(client) && Feed(client, ev).Some?
      modifies this`client
      ensures Feed(old(client), ev) == Some(client)
      ensures FeedAll(before, events + [ev]) == Some(client)
    {
      FeedAllAppend(before, events, [ev]);
      FeedOne(client, ev);
      client := Feed(client, ev).value;
    }

    method CloseTextBlock() returns (events: seq<Event>)
      requires Valid()
      modifies this`textIndex, this`client
      ensures Valid() && textIndex.None?
      ensures FeedAll(old(client), events) == Some(client)
      ensures Assembled() == old(Assembled()).(textOpen := false)
    {
      if textIndex.None? {
        return [];
      }
      events := [BlockStop(textIndex.value)];
      FeedOne(client, events[0]);
      client := client.(open := client.open - {textIndex.value});
      textIndex := None;
      assert Indexes(toolIndexes) == {};
    }

    method CloseToolBlocks() returns (events: seq<Event>)
      requires Valid()
      modifies this`toolIndexes, this`client
      ensures Valid() && toolIndexes == []
      ensures FeedAll(old(client), events) == Some(client)
      ensures Assembled() == old(Assembled()).(calls := [])
    {
      events := PopAll(toolIndexes);
      if textIndex.None? {
        StopsAccepted(client, toolIndexes);
        client := client.(open := {});
      }
      toolIndexes := [];
    }

    method EnsureTextBlock() returns (events: seq<Event>)
      requires Valid()
      modifies this`toolIndexes, this`textIndex, this`nextIndex, this`client, this`owners
      ensures Valid() && textIndex.Some?
      ensures FeedAll(old(client), events) == Some(client)
      ensures old(textIndex).Some? ==> Assembled() == old(Assembled())
      ensures old(textIndex).None? ==>
                Assembled() == AddText(old(Assembled()), "")
    {
      if textIndex.Some? {
        return [];
      }
      ghost var before := client;
      events := CloseToolBlocks();
      textIndex := Some(nextIndex);
      nextIndex := nextIndex + 1;
      owners := owners + [None];
      Read(before, events, BlockStart(textIndex.value, TextHead));
      events := events + [BlockStart(textIndex.value, TextHead)];
    }

    /** The content branch of events_for_chunk. */
    method HandleText(text: string) returns (events: seq<Event>)
      requires Valid()
      modifies this`toolIndexes, this`textIndex, this`nextIndex, this`client, this`owners
      ensures Valid() && FeedAll(old(client), events) == Some(client)
      ensures Assembled() == AddText(old(Assembled()), text)
    {
      ghost var before := client;
      events := EnsureTextBlock();
      Read(before, events, TextDelta(textIndex.value, text));
      events := events + [TextDelta(textIndex.value, text)];
      assert [] + text == text;
    }

    method HandleToolDelta(delta: ToolDelta) returns (r: Result<seq<Event>, string>)
      requires Valid()
      modifies this`toolIndexes, this`textIndex, this`nextIndex, this`client, this`owners
      ensures r.Err? <==> AddTool(old(Assembled()), delta).None?
      ensures r.Ok? ==> Valid() && FeedAll(old(client), r.value) == Some(client)
                        && Some(Assembled()) == AddTool(old(Assembled()), delta)
    {
      if delta.index.None? {
        return Err("streaming tool_call missing index");
      }
      var callIndex := delta.index.value;
      ghost var before := client;
      var events: seq<Event> := [];
      if Lookup(toolIndexes, callIndex).None? {
        if delta.id == "" || delta.name == "" {
          return Err("first streaming tool_call delta missing id or function.name");
        }
        events := OpenToolBlock(callIndex, delta.id, delta.name);
      }
      if delta.arguments.Some? {
        var more := AppendArguments(callIndex, delta.arguments.value);
        FeedAllAppend(before, events, more);
        events := events + more;
      }
      return Ok(events);
    }

    method AppendArguments(callIndex: int, json: string) returns (events: seq<Event>)
      requires Valid() && Lookup(toolIndexes, callIndex).Some?
      modifies this`client
      ensures Valid() && FeedAll(old(client), events) == Some(client)
      ensures Assembled() == ExtendCall(old(Assembled()), callIndex, json)
    {
      var blockIndex := Lookup(toolIndexes, callIndex).value;
      events := [InputJsonDelta(blockIndex, json)];
      IndexesAre(toolIndexes);
      FeedOne(client, events[0]);
      client := Feed(client, events[0]).value;
    }

    /** The first delta of a call: close the text, open and register a tool block. */
    method OpenToolBlock(callIndex: int, id: string, name: string) returns (events: seq<Event>)
      requires Valid() && Lookup(toolIndexes, callIndex).None?
      modifies this`toolIndexes, this`textIndex, this`nextIndex, this`client, this`owners
      ensures Valid() && FeedAll(old(client), events) == Some(client)
      ensures Assembled() == OpenCall(old(Assembled()), callIndex, id, name)
    {
      ghost var before := client;
      events := CloseTextBlock();
      var start := StartToolBlock(callIndex, id, name);
      FeedAllAppend(before, events, start);
      events := events + start;
    }

    /** Number, register and start a tool block; no text block is open. */
    method StartToolBlock(callIndex: int, id: string, name: string) returns (events: seq<Event>)
      requires Valid() && textIndex.None? && Lookup(toolIndexes, callIndex).None?
      modifies this`toolIndexes, this`nextIndex, this`client, this`owners
      ensures Valid() && textIndex.None? && FeedAll(old(client), events) == Some(client)
      ensures Assembled() == OpenCall(old(Assembled()), callIndex, id, name)
    {
      events := [BlockStart(nextIndex, ToolUseHead(id, name))];
      StartToolAccepted(client, toolIndexes, callIndex, id, name);
      toolIndexes := toolIndexes + [(callIndex, nextIndex)];
      nextIndex := nextIndex + 1;
      owners := owners + [Some(callIndex)];
      client := client.(blocks := client.blocks + [ToolUse(id, name, "")], open := Indexes(toolIndexes));
    }

    /** The tool_calls loop of one choice. */
    method HandleToolDeltas(deltas: seq<ToolDelta>) returns (r: Result<seq<Event>, string>)
      requires Valid()
      modifies this`toolIndexes, this`textIndex, this`nextIndex, this`client, this`owners
      ensures r.Err? <==> AddTools(old(Assembled()), deltas).None?
      ensures r.Ok? ==> Valid() && FeedAll(old(client), r.value) == Some(client)
                        && Some(Assembled()) == AddTools(old(Assembled()), deltas)
    {
      var events: seq<Event> := [];
      ghost var before := client;
      var rest := deltas;
      while rest != []
        invariant Valid() && FeedAll(before, events) == Some(client)
        invariant AddTools(Assembled(), rest) == AddTools(old(Assembled()), deltas)
        decreases |rest|
      {
        var more := HandleToolDelta(rest[0]);
        if more.Err? {
          return more;
        }
        FeedAllAppend(before, events, more.value);
        events := events + more.value;
        rest := rest[1..];
      }
      return Ok(events);
    }

    /** One choice of a chunk: content first, then tool deltas, then the finish reason. */
    method HandleChoice(choice: Choice) returns (r: Result<seq<Event>, string>)
      requires Valid()
      modifies this
      ensures r.Err? <==> AddChoice(old(Assembled()), choice).None?
      ensures r.Ok? ==> Valid() && FeedAll(old(client), r.value) == Some(client)
                        && Some(Assembled()) == AddChoice(old(Assembled()), choice)
    {
      var events: seq<Event> := [];
      ghost var before := client;
      if choice.content != "" {
        events := HandleText(choice.content);
      }
      var more := HandleToolDeltas(choice.toolCalls);
      if more.Err? {
        return more;
      }
      FeedAllAppend(before, events, more.value);
      if choice.finishReason != "" {
        finishReason := choice.finishReason;
      }
      return Ok(events + more.value);
    }

    method EventsForChunk(chunk: Chunk) returns (r: Result<seq<Event>, string>)
      requires Valid()
      modifies this
      ensures r.Err? <==> AddChunk(old(Assembled()), chunk).None?
      ensures r.Ok? ==> Valid() && FeedAll(old(client), r.value) == Some(client)
                        && Some(Assembled()) == AddChunk(old(Assembled()), chunk)
    {
      if chunk.usage.Some? {
        usage := chunk.usage;
      }
      var events: seq<Event> := [];
      ghost var before := client;
      var rest := chunk.choices;
      while rest != []
        invariant Valid() && FeedAll(before, events) == Some(client)
        invariant AddChoices(Assembled(), rest) == AddChunk(old(Assembled()), chunk)
        decreases |rest|
      {
        var more := HandleChoice(rest[0]);
        if more.Err? {
          return more;
        }
        FeedAllAppend(before, events, more.value);
        events := events + more.value;
        rest := rest[1..];
      }
      return Ok(events);
    }

    method FinishEvents() returns (events: seq<Event>)
      requires Valid()
      modifies this
      ensures FeedAll(old(client), events) == Some(client)
      ensures client.ended && client.open == {} && client.blocks == old(client.blocks)
      ensures client.outcome == Some((StopReason(old(finishReason)), UsageFromOpenAI(old(usage))))
    {
      ghost var before := client;
      events := CloseTextBlock();
      var more := CloseToolBlocks();
      FeedAllAppend(before, events, more);
      events := events + more;
      assert Indexes(toolIndexes) == {};
      var reason, total := StopReason(finishReason), UsageFromOpenAI(usage);
      FinishAccepted(client, reason, total);
      FeedAllAppend(before, events, [MessageDelta(reason, total), MessageStop]);
      events := events + [MessageDelta(reason, total), MessageStop];
      client := client.(outcome := Some((reason, total)), ended := true);
    }
  }

  lemma {:induction false} FinishAccepted(c: Client, reason: string, usage: TokenUsage)
    requires c.started && !c.ended && c.open == {} && c.outcome.None?
    ensures FeedAll(c, [MessageDelta(reason, usage), MessageStop]) ==
            Some(c.(outcome := Some((reason, usage)), ended := true))
  {
    FeedOne(c, MessageDelta(reason, usage));
    FeedOne(c.(outcome := Some((reason, usage))), MessageStop);
    FeedAllAppend(c, [MessageDelta(reason, usage)], [MessageStop]);
    assert [MessageDelta(reason, usage)] + [MessageStop] == [MessageDelta(reason, usage), MessageStop];
  }

  /**
   * A whole stream.  It raises exactly when the reference assembly does; otherwise a client that
   * reads the events from the start accepts them all, ends with nothing open, and holds the
   * assembled blocks, stop reason and usage.
   */
  method TranslateStream(chunks: seq<Chunk>) returns (r: Result<seq<Event>, string>, ghost client: Client)
    ensures r.Err? <==> AddChunks(EMPTY_ASSEMBLY, chunks).None?
    ensures r.Ok? ==>
              var a := AddChunks(EMPTY_ASSEMBLY, chunks).value;
              && FeedAll(NEW_CLIENT, r.value) == Some(client)
              && client.ended && client.open == {} && client.blocks == a.blocks
              && client.outcome == Some((StopReason(a.finishReason), UsageFromOpenAI(a.usage)))
    ensures r.Ok? ==> Reported(chunks, client.outcome.value)
    ensures r.Ok? ==> HeadsOf(client.blocks) == Heads(false, {}, ChoicePieces(AllChoices(chunks)))
  {
    var t := new Translator();
    var events := t.StartEvents();
    var rest := chunks;
    while rest != []
      invariant fresh(t) && t.Valid() && FeedAll(NEW_CLIENT, events) == Some(t.client)
      invariant AddChunks(t.Assembled(), rest) == AddChunks(EMPTY_ASSEMBLY, chunks)
      decreases |rest|
    {
      var more := t.EventsForChunk(rest[0]);
      if more.Err? {
        return more, NEW_CLIENT;
      }
      FeedAllAppend(NEW_CLIENT, events, more.value);
      events := events + more.value;
      rest := rest[1..];
    }
    var last := t.FinishEvents();
    FeedAllAppend(NEW_CLIENT, events, last);
    ReportIs(chunks);
    BlocksAre(chunks);
    return Ok(events + last), t.client;
  }

  /** Pop every entry of the dict, one stop each, in insertion order. */
  method PopAll(calls: seq<(int, nat)>) returns (events: seq<Event>)
    ensures events == Stops(calls)
  {
    events := [];
    var pending := calls;
    while pending != []
      invariant Stops(calls) == events + Stops(pending)
      decreases |pending|
    {
      events := events + [BlockStop(pending[0].1)];
      pending := pending[1..];
    }
  }
}
