/**
 * Which rows a worker's events give: said of the events alone, and read off the projected rows.
 */
module WorkerRows {
  import opened Prelude
  import opened PhysicalLines
  import opened WorkerLog
  import opened WorkerReader

  // ---------------------------------------------------------------------------
  // The events, without any projection
  // ---------------------------------------------------------------------------

  /** Id, name and input of the tool uses in a message. */
  function UsesOf(blocks: seq<Block>): seq<(string, string, string)> {
    if blocks == [] then []
    else
      var b := blocks[|blocks| - 1];
      UsesOf(blocks[..|blocks| - 1])
      + if b.ToolUse? && b.id.Some? && b.name.Some? then [(b.id.value, b.name.value, b.input)] else []
  }

  function MessageUses(data: Data): seq<(string, string, string)> {
    if data.AssistantMessage? && data.blocks.Some? then UsesOf(data.blocks.value) else []
  }

  /** Every tool use of some events, in order. */
  function AllUses(datas: seq<Data>): seq<(string, string, string)> {
    if datas == [] then [] else AllUses(datas[..|datas| - 1]) + MessageUses(datas[|datas| - 1])
  }

  /** The name of the last of these tool uses that has the id; "" if none has. */
  predicate IsNameFor(uses: seq<(string, string, string)>, id: string, name: string) {
    if forall k :: 0 <= k < |uses| ==> uses[k].0 != id then name == ""
    else
      exists k :: 0 <= k < |uses| && uses[k].0 == id && uses[k].1 == name && forall j :: k < j < |uses| ==> uses[j].0 != id
  }

  /** A result's row: its name, its first 20000 characters, and whether there were more. */
  predicate IsResultRow(uses: seq<(string, string, string)>, b: Block, row: Row) {
    && b.ToolResult? && row.ToolResultRow?
    && IsNameFor(uses, b.toolUseId, row.name)
    && row.truncated == (|b.text| > 20000)
    && row.output == if |b.text| > 20000 then b.text[..20000] else b.text
  }

  /** The tool results of a message, in order. */
  function ResultsOf(blocks: seq<Block>): seq<Block> {
    if blocks == [] then []
    else ResultsOf(blocks[..|blocks| - 1]) + if blocks[|blocks| - 1].ToolResult? then [blocks[|blocks| - 1]] else []
  }

  /** An event of another kind is one row: its content, capped only if it is a result over 20000 characters. */
  predicate IsOtherRow(data: Data, row: Row) {
    && data.OtherEvent? && row.OtherRow? && row.rest == data.rest
    && row.truncated == (data.isToolResult && data.content.Some? && |data.content.value| > 20000)
    && row.content == if row.truncated then Some(data.content.value[..20000]) else data.content
  }

  /** A row for each tool use: its name and input. */
  function UseRows(uses: seq<(string, string, string)>): seq<Row> {
    seq(|uses|, k requires 0 <= k < |uses| => ToolUseRow(uses[k].1, uses[k].2))
  }

  lemma {:induction false} UseRowsAppend(a: seq<(string, string, string)>, b: seq<(string, string, string)>)
    ensures UseRows(a + b) == UseRows(a) + UseRows(b)
  {
  }

  /** The rows of one event, after the tool uses before it. */
  ghost predicate AreRowsOf(uses: seq<(string, string, string)>, data: Data, rows: seq<Row>) {
    match data
    case AssistantMessage(text, _, _) =>
      rows == (if text == "" then [] else [TextRow(text)]) + UseRows(MessageUses(data))
    case UserMessage(blocks, _) =>
      var results := if blocks.Some? then ResultsOf(blocks.value) else [];
      |rows| == |results| && forall k :: 0 <= k < |rows| ==> IsResultRow(uses, results[k], rows[k])
    case OtherEvent(_, _, _) => |rows| == 1 && IsOtherRow(data, rows[0])
    case NotAnObject => false
  }

  // ---------------------------------------------------------------------------
  // What one event adds
  // ---------------------------------------------------------------------------

  /** The recorded names are those of the last tool uses. */
  ghost predicate Records(names: map<string, string>, uses: seq<(string, string, string)>) {
    forall id :: IsNameFor(uses, id, if id in names then names[id] else "")
  }

  lemma {:induction false} RecordOne(names: map<string, string>, uses: seq<(string, string, string)>, u: (string, string, string))
    requires Records(names, uses)
    ensures Records(names[u.0 := u.1], uses + [u])
  {
    var grown, more := names[u.0 := u.1], uses + [u];
    forall id ensures IsNameFor(more, id, if id in grown then grown[id] else "") {
      assert more[|uses|] == u;
      if id != u.0 {
        assert IsNameFor(uses, id, if id in names then names[id] else "");
        if k :| 0 <= k < |uses| && uses[k].0 == id {
          var last :| 0 <= last < |uses| && uses[last].0 == id && uses[last].1 == (if id in names then names[id] else "")
                      && forall j :: last < j < |uses| ==> uses[j].0 != id;
          assert more[last] == uses[last];
          assert more[k].0 == id;
        }
      }
    }
  }

  lemma {:induction false} UsesRows(p: Progress, timeOk: bool, blocks: seq<Block>, uses: seq<(string, string, string)>)
    requires !p.raised && !AnyBadToolUse(timeOk, blocks) && Records(p.names, uses)
    ensures var own, q := UsesOf(blocks), AddToolUses(p, timeOk, blocks);
            && q.rows == p.rows + UseRows(own)
            && Records(q.names, uses + own)
  {
    if blocks == [] {
      assert uses + [] == uses;
    } else {
      var front, b := blocks[..|blocks| - 1], blocks[|blocks| - 1];
      UsesRows(p, timeOk, front, uses);
      ToolUsesRaise(p, timeOk, front);
      if b.ToolUse? {
        var u := (b.id.value, b.name.value, b.input);
        RecordOne(AddToolUses(p, timeOk, front).names, uses + UsesOf(front), u);
        Assoc(uses, UsesOf(front), [u]);
        UseRowsAppend(UsesOf(front), [u]);
        Assoc(p.rows, UseRows(UsesOf(front)), [ToolUseRow(u.1, u.2)]);
      } else {
        assert UsesOf(front) + [] == UsesOf(front);
      }
    }
  }

  lemma {:induction false} ResultsRows(p: Progress, timeOk: bool, blocks: seq<Block>, uses: seq<(string, string, string)>)
      returns (rows: seq<Row>)
    requires !p.raised && !AnyBadToolResult(timeOk, blocks) && Records(p.names, uses)
    ensures AddToolResults(p, timeOk, blocks).rows == p.rows + rows && AddToolResults(p, timeOk, blocks).names == p.names
    ensures |rows| == |ResultsOf(blocks)|
    ensures forall k :: 0 <= k < |rows| ==> IsResultRow(uses, ResultsOf(blocks)[k], rows[k])
  {
    if blocks == [] {
      rows := [];
    } else {
      var front, b := blocks[..|blocks| - 1], blocks[|blocks| - 1];
      rows := ResultsRows(p, timeOk, front, uses);
      ToolResultsRaise(p, timeOk, front);
      var before := AddToolResults(p, timeOk, front);
      if b.ToolResult? {
        var row := AddToolResult(before, timeOk, b).rows[|before.rows|];
        assert IsNameFor(uses, b.toolUseId, if b.toolUseId in p.names then p.names[b.toolUseId] else "");
        assert IsResultRow(uses, b, row);
        Assoc(p.rows, rows, [row]);
        rows := rows + [row];
      }
    }
  }

  lemma {:induction false} EventRows(p: Progress, data: Data, uses: seq<(string, string, string)>) returns (rows: seq<Row>)
    requires !p.raised && !Bad(data) && Records(p.names, uses)
    ensures AddData(p, data).rows == p.rows + rows && AreRowsOf(uses, data, rows)
    ensures Records(AddData(p, data).names, uses + MessageUses(data))
  {
    assert uses + [] == uses;
    match data
    case AssistantMessage(text, blocks, timeOk) =>
      var texts := if text == "" then [] else [TextRow(text)];
      var own := UsesOf(blocks.value);
      UsesRows(p.(rows := p.rows + texts), timeOk, blocks.value, uses);
      rows := texts + UseRows(own);
      Assoc(p.rows, texts, UseRows(own));
      assert p.rows + [] == p.rows;
    case UserMessage(blocks, timeOk) =>
      rows := ResultsRows(p, timeOk, blocks.value, uses);
    case OtherEvent(isToolResult, content, rest) =>
      rows := [AddData(p, data).rows[|p.rows|]];
  }

  // ---------------------------------------------------------------------------
  // Whole logs
  // ---------------------------------------------------------------------------

  /** These parts, event by event, are the rows of the events. */
  ghost predicate ArePartsOf(datas: seq<Data>, parts: seq<seq<Row>>) {
    |parts| == |datas| && forall k :: 0 <= k < |datas| ==> IsPartOf(datas, parts[k], k)
  }

  ghost predicate IsPartOf(datas: seq<Data>, part: seq<Row>, k: nat)
    requires k < |datas|
  {
    AreRowsOf(AllUses(datas[..k]), datas[k], part)
  }

  lemma {:induction false} PartOfFront(datas: seq<Data>, n: nat, part: seq<Row>, k: nat)
    requires k < n <= |datas|
    ensures IsPartOf(datas[..n], part, k) <==> IsPartOf(datas, part, k)
  {
    assert datas[..n][..k] == datas[..k];
  }

  /**
   * The rows of a log that reads well, event by event and in order: an assistant message gives its
   * text, if it has any, and then its tool uses; a user message gives its tool results, each under
   * the name last recorded for its id; any other event gives one row.
   */
  lemma {:induction false} RowsAre(datas: seq<Data>) returns (parts: seq<seq<Row>>)
    requires !AnyBad(datas)
    ensures ArePartsOf(datas, parts) && Project(NOTHING, datas).rows == Concat(parts) && !Project(NOTHING, datas).raised
    ensures Records(Project(NOTHING, datas).names, AllUses(datas))
  {
    ProjectRaises(NOTHING, datas);
    if datas == [] {
      parts := [];
    } else {
      var front, last := datas[..|datas| - 1], datas[|datas| - 1];
      var before := RowsAre(front);
      var rows := EventRows(Project(NOTHING, front), last, AllUses(front));
      parts := before + [rows];
      ConcatSnoc(before, rows);
      forall k | 0 <= k < |datas| ensures IsPartOf(datas, parts[k], k) {
        if k < |front| {
          PartOfFront(datas, |front|, before[k], k);
        }
      }
    }
  }

  /** What a read of a log answers, if it does not raise: the rows of the events of its complete lines. */
  lemma {:induction false} ReadRowsAre(parse: Parser, content: Bytes) returns (parts: seq<seq<Row>>)
    requires WholeRead(parse, content).Some?
    ensures ArePartsOf(Datas(parse, Committed(content)), parts) && WholeRead(parse, content) == Some(Concat(parts))
  {
    var datas := Datas(parse, Committed(content));
    ProjectRaises(NOTHING, datas);
    parts := RowsAre(datas);
  }

  /** An event that cannot be projected. */
  predicate Breaks(data: Data) {
    match data
    case NotAnObject => true
    case AssistantMessage(text, blocks, timeOk) =>
      || (text != "" && !timeOk) || blocks.None?
      || exists k :: 0 <= k < |blocks.value| && blocks.value[k].ToolUse?
                     && (blocks.value[k].id.None? || blocks.value[k].name.None? || !timeOk || !blocks.value[k].inputOk)
    case UserMessage(blocks, timeOk) =>
      || blocks.None?
      || exists k :: 0 <= k < |blocks.value| && (blocks.value[k].NotADict? || (blocks.value[k].ToolResult? && !timeOk))
    case OtherEvent(_, _, _) => false
  }

  lemma {:induction false} BadUseIs(timeOk: bool, blocks: seq<Block>)
    ensures AnyBadToolUse(timeOk, blocks) <==>
              exists k :: 0 <= k < |blocks| && blocks[k].ToolUse?
                          && (blocks[k].id.None? || blocks[k].name.None? || !timeOk || !blocks[k].inputOk)
  {
    if blocks != [] {
      BadUseIs(timeOk, blocks[..|blocks| - 1]);
      assert forall k :: 0 <= k < |blocks| - 1 ==> blocks[..|blocks| - 1][k] == blocks[k];
    }
  }

  lemma {:induction false} BadResultIs(timeOk: bool, blocks: seq<Block>)
    ensures AnyBadToolResult(timeOk, blocks) <==>
              exists k :: 0 <= k < |blocks| && (blocks[k].NotADict? || (blocks[k].ToolResult? && !timeOk))
  {
    if blocks != [] {
      BadResultIs(timeOk, blocks[..|blocks| - 1]);
      assert forall k :: 0 <= k < |blocks| - 1 ==> blocks[..|blocks| - 1][k] == blocks[k];
    }
  }

  lemma {:induction false} BadIs(data: Data)
    ensures Bad(data) <==> Breaks(data)
  {
    match data
    case AssistantMessage(text, blocks, timeOk) =>
      if blocks.Some? {
        BadUseIs(timeOk, blocks.value);
      }
    case UserMessage(blocks, timeOk) =>
      if blocks.Some? {
        BadResultIs(timeOk, blocks.value);
      }
    case _ =>
  }

  /** A projection raises exactly when one of its events cannot be projected. */
  lemma {:induction false} RaisesIff(datas: seq<Data>)
    ensures Project(NOTHING, datas).raised <==> exists k :: 0 <= k < |datas| && Breaks(datas[k])
  {
    ProjectRaises(NOTHING, datas);
    BadAmong(datas);
  }

  lemma {:induction false} BadAmong(datas: seq<Data>)
    ensures AnyBad(datas) <==> exists k :: 0 <= k < |datas| && Breaks(datas[k])
  {
    if datas != [] {
      var n := |datas| - 1;
      BadAmong(datas[..n]);
      BadIs(datas[n]);
      assert forall k :: 0 <= k < n ==> datas[..n][k] == datas[k];
    }
  }

  /** The texts of a list of rows. */
  function TextsIn(rows: seq<Row>): seq<string> {
    if rows == [] then []
    else TextsIn(rows[..|rows| - 1]) + if rows[|rows| - 1].TextRow? then [rows[|rows| - 1].text] else []
  }

  /** Name and input of the tool-use rows. */
  function UsesIn(rows: seq<Row>): seq<(string, string)> {
    if rows == [] then []
    else
      UsesIn(rows[..|rows| - 1])
      + if rows[|rows| - 1].ToolUseRow? then [(rows[|rows| - 1].name, rows[|rows| - 1].input)] else []
  }

  /** What the worker said. */
  function Said(datas: seq<Data>): seq<string> {
    if datas == [] then []
    else
      var d := datas[|datas| - 1];
      Said(datas[..|datas| - 1]) + if d.AssistantMessage? && d.text != "" then [d.text] else []
  }

  /** Name and input of these tool uses. */
  function NamedInputs(uses: seq<(string, string, string)>): seq<(string, string)> {
    seq(|uses|, k requires 0 <= k < |uses| => (uses[k].1, uses[k].2))
  }

  lemma {:induction false} ReadAppend(a: seq<Row>, b: seq<Row>)
    ensures TextsIn(a + b) == TextsIn(a) + TextsIn(b) && UsesIn(a + b) == UsesIn(a) + UsesIn(b)
    decreases |b|
  {
    if b == [] {
      assert a + b == a;
    } else {
      ReadAppend(a, b[..|b| - 1]);
      assert (a + b)[..|a + b| - 1] == a + b[..|b| - 1];
    }
  }

  lemma {:induction false} ReadUseRows(uses: seq<(string, string, string)>)
    ensures TextsIn(UseRows(uses)) == [] && UsesIn(UseRows(uses)) == NamedInputs(uses)
  {
    if uses != [] {
      ReadUseRows(uses[..|uses| - 1]);
      assert UseRows(uses)[..|uses| - 1] == UseRows(uses[..|uses| - 1]);
    }
  }

  lemma {:induction false} ReadNeither(rows: seq<Row>)
    requires forall k :: 0 <= k < |rows| ==> !rows[k].TextRow? && !rows[k].ToolUseRow?
    ensures TextsIn(rows) == [] && UsesIn(rows) == []
  {
    if rows != [] {
      ReadNeither(rows[..|rows| - 1]);
    }
  }

  lemma {:induction false} ReadEvent(uses: seq<(string, string, string)>, data: Data, rows: seq<Row>)
    requires AreRowsOf(uses, data, rows)
    ensures TextsIn(rows) == if data.AssistantMessage? && data.text != "" then [data.text] else []
    ensures UsesIn(rows) == NamedInputs(MessageUses(data))
  {
    if data.AssistantMessage? {
      var texts := if data.text == "" then [] else [TextRow(data.text)];
      ReadAppend(texts, UseRows(MessageUses(data)));
      ReadUseRows(MessageUses(data));
      assert [TextRow(data.text)][..0] == [];
    } else {
      ReadNeither(rows);
    }
  }

  /** The text rows are what the worker said, and the tool-use rows its tool uses, each in log order. */
  lemma {:induction false} TextsAndUses(datas: seq<Data>)
    requires !AnyBad(datas)
    ensures TextsIn(Project(NOTHING, datas).rows) == Said(datas)
    ensures UsesIn(Project(NOTHING, datas).rows) == NamedInputs(AllUses(datas))
  {
    var parts := RowsAre(datas);
    ReadParts(datas, parts);
  }

  lemma {:induction false} ReadParts(datas: seq<Data>, parts: seq<seq<Row>>)
    requires ArePartsOf(datas, parts)
    ensures TextsIn(Concat(parts)) == Said(datas) && UsesIn(Concat(parts)) == NamedInputs(AllUses(datas))
  {
    if datas != [] {
      var n := |datas| - 1;
      FrontParts(datas, parts);
      ReadParts(datas[..n], parts[..n]);
      assert IsPartOf(datas, parts[n], n);
      ReadEvent(AllUses(datas[..n]), datas[n], parts[n]);
      ReadAppend(Concat(parts[..n]), parts[n]);
      NamedInputsAppend(AllUses(datas[..n]), MessageUses(datas[n]));
    }
  }

  lemma {:induction false} FrontParts(datas: seq<Data>, parts: seq<seq<Row>>)
    requires ArePartsOf(datas, parts) && datas != []
    ensures var n := |datas| - 1; ArePartsOf(datas[..n], parts[..n]) && Concat(parts) == Concat(parts[..n]) + parts[n]
  {
    var n := |datas| - 1;
    forall k | 0 <= k < n ensures IsPartOf(datas[..n], parts[..n][k], k) {
      PartOfFront(datas, n, parts[k], k);
    }
    assert parts == parts[..n] + [parts[n]];
    ConcatSnoc(parts[..n], parts[n]);
  }

  lemma {:induction false} NamedInputsAppend(a: seq<(string, string, string)>, b: seq<(string, string, string)>)
    ensures NamedInputs(a + b) == NamedInputs(a) + NamedInputs(b)
  {
  }

  /** A line without an LF is invisible if it is empty or cannot be parsed, and else is one event. */
  lemma {:induction false} LineIs(parse: Parser, line: Bytes)
    requires LF !in line
    ensures Datas(parse, line + [LF]) == if line == [] || parse(line).None? then [] else [parse(line).value]
    ensures Committed(line) == []
  {
    SplitLine(line);
    var pieces: seq<Bytes> := [line, []];
    assert pieces[1..] == [[]] && pieces[1..][1..] == [];
    assert ParsePieces(parse, pieces[1..]) == ParsePiece(parse, []) + ParsePieces(parse, []);
    NothingComplete(line);
  }

  lemma {:induction false} NothingComplete(line: Bytes)
    requires LF !in line
    ensures CompleteEnd(line) == 0
  {
    if line != [] {
      NothingComplete(line[..|line| - 1]);
    }
  }

  lemma {:induction false} SplitLine(line: Bytes)
    requires LF !in line
    ensures SplitLf(line + [LF]) == [line, []]
  {
    if line == [] {
      assert line + [LF] == [LF] && [LF][1..] == [];
      assert SplitLf([]) == [[]];
    } else {
      SplitLine(line[1..]);
      assert (line + [LF])[1..] == line[1..] + [LF] && (line + [LF])[0] == line[0];
      assert [line[0]] + line[1..] == line;
    }
  }
}
