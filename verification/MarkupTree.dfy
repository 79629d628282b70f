/**
 * The document tree built from a token stream, as values: the open elements are a path of frames,
 * and a token changes the path only at its end.  Against it stands a reference that knows no tree,
 * only the tags still open, and writes the stream out with the missing ends filled in.
 */
module MarkupTree {
  import opened Prelude

  type Attrs = map<string, Option<string>>

  datatype Token =
    | StartTag(tag: string, pairs: seq<(string, Option<string>)>)
    | StartEndTag(tag: string, pairs: seq<(string, Option<string>)>)
    | EndTag(tag: string)
    | Data(text: string)

  datatype Node = Text(text: string) | Element(tag: string, attrs: Attrs, children: seq<Node>)

  /** An open element: its finished children, without the one that is still open. */
  datatype Frame = Frame(tag: string, attrs: Attrs, finished: seq<Node>)

  const ROOT := "#root"

  /** The Python dict of a list of pairs: a later pair wins. */
  function DictOf(pairs: seq<(string, Option<string>)>): Attrs {
    if pairs == [] then map[]
    else var (name, value) := pairs[|pairs| - 1]; DictOf(pairs[..|pairs| - 1])[name := value]
  }

  /** A name has the value of its last pair, and no other name is in it. */
  lemma {:induction false} DictOfIs(pairs: seq<(string, Option<string>)>, i: nat, name: string)
    ensures name in DictOf(pairs) <==> exists k :: 0 <= k < |pairs| && pairs[k].0 == name
    ensures i < |pairs| && pairs[i].0 == name && (forall k :: i < k < |pairs| ==> pairs[k].0 != name) ==>
              name in DictOf(pairs) && DictOf(pairs)[name] == pairs[i].1
  {
    var n := |pairs| - 1;
    if n >= 0 {
      DictOfIs(pairs[..n], i, name);
      assert pairs[n].0 != name && name in DictOf(pairs) ==> name in DictOf(pairs[..n]);
    }
  }

  // ---------------------------------------------------------------------------
  // Building
  // ---------------------------------------------------------------------------

  function AddChild(path: seq<Frame>, child: Node): seq<Frame>
    requires path != []
  {
    var top := path[|path| - 1];
    path[..|path| - 1] + [top.(finished := top.finished + [child])]
  }

  /** Adjacent data joins the last text. */
  function AddText(nodes: seq<Node>, text: string): seq<Node> {
    if nodes != [] && nodes[|nodes| - 1].Text?
    then nodes[..|nodes| - 1] + [Text(nodes[|nodes| - 1].text + text)]
    else nodes + [Text(text)]
  }

  function CloseTop(path: seq<Frame>): (r: seq<Frame>)
    requires |path| > 1
    ensures |r| == |path| - 1
  {
    var top := path[|path| - 1];
    AddChild(path[..|path| - 1], Element(top.tag, top.attrs, top.finished))
  }

  function CloseDownTo(path: seq<Frame>, depth: nat): (r: seq<Frame>)
    requires 1 <= depth <= |path|
    ensures |r| == depth
    decreases |path|
  {
    if |path| == depth then path else CloseDownTo(CloseTop(path), depth)
  }

  /** The place of the nearest open element with this tag, the root excluded; 0 when there is none. */
  function Nearest(open: seq<string>, tag: string): (i: nat)
    ensures i == 0 <==> NoneAbove(open, 0, tag)
    ensures i > 0 ==> i < |open| && open[i] == tag && NoneAbove(open, i, tag)
  {
    if |open| <= 1 then 0
    else if open[|open| - 1] == tag then |open| - 1
    else Nearest(open[..|open| - 1], tag)
  }

  function Tags(path: seq<Frame>): (r: seq<string>)
    ensures |r| == |path|
  {
    if path == [] then [] else Tags(path[..|path| - 1]) + [path[|path| - 1].tag]
  }

  /** The open elements that an end tag leaves: those below the last one with its tag, or all if there is none but the root. */
  ghost predicate Leaves(open: seq<string>, tag: string, left: seq<string>) {
    && (NoneAbove(open, 0, tag) ==> left == open)
    && (forall i :: 0 < i < |open| && open[i] == tag && NoneAbove(open, i, tag) ==> left == open[..i])
  }

  predicate NoneAbove(open: seq<string>, i: nat, tag: string) {
    forall k :: i < k < |open| ==> open[k] != tag
  }

  lemma {:induction false} NearestIs(open: seq<string>, tag: string, i: nat)
    requires i < |open| && NoneAbove(open, i, tag) && (i > 0 ==> open[i] == tag)
    ensures Nearest(open, tag) == i
  {
  }

  const START: seq<Frame> := [Frame(ROOT, map[], [])]

  function Step(voids: set<string>, path: seq<Frame>, token: Token): (r: seq<Frame>)
    requires path != []
    ensures r != []
  {
    match token
    case StartTag(tag, pairs) =>
      if tag in voids then AddChild(path, Element(tag, DictOf(pairs), [])) else path + [Frame(tag, DictOf(pairs), [])]
    case StartEndTag(tag, pairs) => AddChild(path, Element(tag, DictOf(pairs), []))
    case EndTag(tag) =>
      var i := Nearest(Tags(path), tag);
      if i == 0 then path else CloseDownTo(path, i)
    case Data(text) =>
      var top := path[|path| - 1];
      path[..|path| - 1] + [top.(finished := AddText(top.finished, text))]
  }

  function Run(voids: set<string>, path: seq<Frame>, tokens: seq<Token>): (r: seq<Frame>)
    requires path != []
    ensures r != []
  {
    if tokens == [] then path
    else Step(voids, Run(voids, path, tokens[..|tokens| - 1]), tokens[|tokens| - 1])
  }

  /** What the open path amounts to when the input ends: every open element as it stands. */
  function TreeOf(path: seq<Frame>): Node
    requires path != []
  {
    var root := CloseDownTo(path, 1)[0];
    Element(root.tag, root.attrs, root.finished)
  }

  // ---------------------------------------------------------------------------
  // Writing a tree out
  // ---------------------------------------------------------------------------

  datatype Mark = Open(tag: string, attrs: Attrs) | Close(tag: string) | Chars(text: string)

  function Marks(node: Node): seq<Mark>
    decreases node
  {
    match node
    case Text(text) => [Chars(text)]
    case Element(tag, attrs, children) =>
      [Open(tag, attrs)] + AllMarks(children) + [Close(tag)]
  }

  function AllMarks(nodes: seq<Node>): seq<Mark>
    decreases nodes
  {
    if nodes == [] then []
    else AllMarks(nodes[..|nodes| - 1]) + Marks(nodes[|nodes| - 1])
  }

  /** The part of the document the path has read: every open element lacks its end. */
  function Written(path: seq<Frame>): seq<Mark> {
    if path == [] then []
    else
      var top := path[|path| - 1];
      Written(path[..|path| - 1]) + ([Open(top.tag, top.attrs)] + AllMarks(top.finished))
  }

  /** One more mark; adjacent characters merge. */
  function AppendChars(marks: seq<Mark>, text: string): seq<Mark> {
    if marks != [] && marks[|marks| - 1].Chars?
    then marks[..|marks| - 1] + [Chars(marks[|marks| - 1].text + text)]
    else marks + [Chars(text)]
  }

  // ---------------------------------------------------------------------------
  // The reference: no tree, only the open tags
  // ---------------------------------------------------------------------------

  datatype Writer = Writer(open: seq<string>, marks: seq<Mark>)

  /** The ends of the elements open at depth and above, innermost first. */
  function Ends(open: seq<string>, depth: nat): seq<Mark>
    requires depth <= |open|
  {
    if |open| == depth then [] else [Close(open[|open| - 1])] + Ends(open[..|open| - 1], depth)
  }

  function Write(voids: set<string>, w: Writer, token: Token): Writer {
    match token
    case StartTag(tag, pairs) =>
      if tag in voids then Writer(w.open, w.marks + [Open(tag, DictOf(pairs)), Close(tag)])
      else Writer(w.open + [tag], w.marks + [Open(tag, DictOf(pairs))])
    case StartEndTag(tag, pairs) =>
      Writer(w.open, w.marks + [Open(tag, DictOf(pairs)), Close(tag)])
    case EndTag(tag) =>
      var i := Nearest(w.open, tag);
      if i == 0 then w else Writer(w.open[..i], w.marks + Ends(w.open, i))
    case Data(text) => Writer(w.open, AppendChars(w.marks, text))
  }

  function WriteAll(voids: set<string>, w: Writer, tokens: seq<Token>): Writer {
    if tokens == [] then w
    else Write(voids, WriteAll(voids, w, tokens[..|tokens| - 1]), tokens[|tokens| - 1])
  }

  function WriterOf(path: seq<Frame>): Writer {
    Writer(Tags(path), Written(path))
  }

  // ---------------------------------------------------------------------------
  // The tree agrees with the reference, token by token
  // ---------------------------------------------------------------------------

  lemma {:induction false} AllMarksSnoc(nodes: seq<Node>, node: Node)
    ensures AllMarks(nodes + [node]) == AllMarks(nodes) + Marks(node)
  {
    assert (nodes + [node])[..|nodes|] == nodes;
  }

  lemma {:induction false} SnocUnique<T>(s: seq<T>, x: T)
    ensures (s + [x])[..|s|] == s && (s + [x])[|s|] == x && |s + [x]| == |s| + 1
  {
  }

  lemma {:induction false} AddChildWritten(path: seq<Frame>, child: Node)
    requires path != []
    ensures Written(AddChild(path, child)) == Written(path) + Marks(child)
    ensures Tags(AddChild(path, child)) == Tags(path)
  {
    var n := |path| - 1;
    var top := path[n];
    SnocUnique(path[..n], top.(finished := top.finished + [child]));
    AllMarksSnoc(top.finished, child);
    Reassociate3(Written(path[..n]), [Open(top.tag, top.attrs)], AllMarks(top.finished), Marks(child));
  }

  lemma {:induction false} Reassociate3<T>(a: seq<T>, b: seq<T>, c: seq<T>, d: seq<T>)
    ensures a + (b + (c + d)) == (a + (b + c)) + d
  {
  }

  lemma {:induction false} PushWritten(path: seq<Frame>, tag: string, attrs: Attrs)
    ensures Written(path + [Frame(tag, attrs, [])]) == Written(path) + [Open(tag, attrs)]
    ensures Tags(path + [Frame(tag, attrs, [])]) == Tags(path) + [tag]
  {
    SnocUnique(path, Frame(tag, attrs, []));
  }

  /** Closing an element writes its end and nothing else. */
  lemma {:induction false} CloseTopWritten(path: seq<Frame>)
    requires |path| > 1
    ensures Written(CloseTop(path)) == Written(path) + [Close(path[|path| - 1].tag)]
    ensures Tags(CloseTop(path)) == Tags(path)[..|path| - 1]
  {
    var n := |path| - 1;
    var top := path[n];
    var closed := Element(top.tag, top.attrs, top.finished);
    AddChildWritten(path[..n], closed);
    assert Marks(closed) == [Open(top.tag, top.attrs)] + AllMarks(top.finished) + [Close(top.tag)];
    Reassociate4(Written(path[..n]), [Open(top.tag, top.attrs)], AllMarks(top.finished), [Close(top.tag)]);
  }

  lemma {:induction false} Reassociate4<T>(a: seq<T>, b: seq<T>, c: seq<T>, d: seq<T>)
    ensures a + (b + c + d) == (a + (b + c)) + d
  {
  }

  lemma {:induction false} TagsAt(path: seq<Frame>, i: nat)
    requires i < |path|
    ensures Tags(path)[i] == path[i].tag
  {
    var n := |path| - 1;
    if i < n {
      TagsAt(path[..n], i);
    }
  }

  lemma {:induction false} CloseDownToWritten(path: seq<Frame>, depth: nat)
    requires 1 <= depth <= |path|
    ensures Written(CloseDownTo(path, depth)) == Written(path) + Ends(Tags(path), depth)
    ensures Tags(CloseDownTo(path, depth)) == Tags(path)[..depth]
    decreases |path|
  {
    var n := |path| - 1;
    if n >= depth {
      TagsAt(path, n);
      CloseTopWritten(path);
      CloseDownToWritten(CloseTop(path), depth);
      assert Tags(CloseTop(path))[..depth] == Tags(path)[..depth];
      Assoc(Written(path), [Close(path[n].tag)], Ends(Tags(path)[..n], depth));
    } else {
      assert Tags(path)[..depth] == Tags(path);
    }
  }

  /** A frame's own marks end in characters exactly when its last child is a text. */
  lemma {:induction false} LastMark(nodes: seq<Node>)
    requires nodes != []
    ensures AllMarks(nodes) != []
    ensures nodes[|nodes| - 1].Text? ==>
              AllMarks(nodes) == AllMarks(nodes[..|nodes| - 1]) + [Chars(nodes[|nodes| - 1].text)]
    ensures nodes[|nodes| - 1].Element? ==> !AllMarks(nodes)[|AllMarks(nodes)| - 1].Chars?
  {
  }

  lemma {:induction false} AppendCharsTail(a: seq<Mark>, b: seq<Mark>, text: string)
    requires b != []
    ensures AppendChars(a + b, text) == a + AppendChars(b, text)
  {
    if b[|b| - 1].Chars? {
      assert (a + b)[..|a + b| - 1] == a + b[..|b| - 1];
    }
  }

  lemma {:induction false} AddTextMarks(nodes: seq<Node>, text: string)
    ensures AllMarks(AddText(nodes, text)) == AppendChars(AllMarks(nodes), text)
  {
    var n := |nodes| - 1;
    if n >= 0 {
      LastMark(nodes);
    }
    if n >= 0 && nodes[n].Text? {
      AllMarksSnoc(nodes[..n], Text(nodes[n].text + text));
    } else {
      AllMarksSnoc(nodes, Text(text));
    }
  }

  lemma {:induction false} DataWritten(path: seq<Frame>, text: string)
    requires path != []
    ensures var top := path[|path| - 1];
            var grown := path[..|path| - 1] + [top.(finished := AddText(top.finished, text))];
            Written(grown) == AppendChars(Written(path), text) && Tags(grown) == Tags(path)
  {
    var n := |path| - 1;
    var top := path[n];
    SnocUnique(path[..n], top.(finished := AddText(top.finished, text)));
    AddTextMarks(top.finished, text);
    AppendCharsTail(Written(path[..n]), [Open(top.tag, top.attrs)] + AllMarks(top.finished), text);
    if AllMarks(top.finished) != [] {
      AppendCharsTail([Open(top.tag, top.attrs)], AllMarks(top.finished), text);
    }
  }

  /** One token: the tree grows by exactly what the reference writes. */
  lemma {:induction false} StepWrites(voids: set<string>, path: seq<Frame>, token: Token)
    requires path != []
    ensures WriterOf(Step(voids, path, token)) == Write(voids, WriterOf(path), token)
  {
    match token
    case StartTag(tag, pairs) =>
      if tag in voids {
        AddChildWritten(path, Element(tag, DictOf(pairs), []));
      } else {
        PushWritten(path, tag, DictOf(pairs));
      }
    case StartEndTag(tag, pairs) =>
      AddChildWritten(path, Element(tag, DictOf(pairs), []));
    case EndTag(tag) =>
      var i := Nearest(Tags(path), tag);
      if i != 0 {
        CloseDownToWritten(path, i);
      }
    case Data(text) =>
      DataWritten(path, text);
  }

  lemma {:induction false} RunWrites(voids: set<string>, path: seq<Frame>, tokens: seq<Token>)
    requires path != []
    ensures WriterOf(Run(voids, path, tokens)) == WriteAll(voids, WriterOf(path), tokens)
  {
    if tokens != [] {
      var n := |tokens| - 1;
      RunWrites(voids, path, tokens[..n]);
      StepWrites(voids, Run(voids, path, tokens[..n]), tokens[n]);
    }
  }

  lemma {:induction false} CloseAllWritten(path: seq<Frame>)
    requires path != []
    ensures Marks(TreeOf(path)) == Written(path) + Ends(Tags(path), 0)
  {
    CloseDownToWritten(path, 1);
    var root := CloseDownTo(path, 1);
    assert root == [root[0]];
    assert Written(root) == [Open(root[0].tag, root[0].attrs)] + AllMarks(root[0].finished);
    EndsSplit(Tags(path), 1);
    TagsAt(root, 0);
    Assoc(Written(path), Ends(Tags(path), 1), [Close(root[0].tag)]);
  }

  lemma {:induction false} EndsSplit(open: seq<string>, depth: nat)
    requires 0 < depth <= |open|
    ensures Ends(open, depth - 1) == Ends(open, depth) + [Close(open[depth - 1])]
  {
    var n := |open| - 1;
    if n >= depth {
      EndsSplit(open[..n], depth);
      Assoc([Close(open[n])], Ends(open[..n], depth), [Close(open[depth - 1])]);
    }
  }

  const BLANK_PAGE := Writer([ROOT], [Open(ROOT, map[])])

  /** Every stream: the tree, written out, is the stream with the ends it lacks filled in. */
  lemma {:induction false} TreeIsRepairedStream(voids: set<string>, tokens: seq<Token>)
    ensures var w := WriteAll(voids, BLANK_PAGE, tokens);
            Marks(TreeOf(Run(voids, START, tokens))) == w.marks + Ends(w.open, 0)
  {
    StartWritten();
    RunWrites(voids, START, tokens);
    CloseAllWritten(Run(voids, START, tokens));
  }

  lemma {:induction false} StartWritten()
    ensures WriterOf(START) == BLANK_PAGE
  {
    assert START[..0] == [];
    assert Written(START) == [Open(ROOT, map[])];
  }

  /** The tags of the elements still open after a stream, the root's first. */
  function OpenTags(voids: set<string>, tokens: seq<Token>): seq<string> {
    Tags(Run(voids, START, tokens))
  }

  /**
   * What one more token does to the open elements: a start tag opens one unless it is void, an end
   * tag leaves those below the last one with its tag, and nothing else opens or closes any.
   */
  lemma {:induction false} OpenTagsStep(voids: set<string>, tokens: seq<Token>, token: Token)
    ensures OpenTags(voids, []) == [ROOT]
    ensures var before, after := OpenTags(voids, tokens), OpenTags(voids, tokens + [token]);
            match token
            case StartTag(tag, _) => after == if tag in voids then before else before + [tag]
            case EndTag(tag) => Leaves(before, tag, after)
            case _ => after == before
  {
    StartWritten();
    assert (tokens + [token])[..|tokens|] == tokens;
    RunWrites(voids, START, tokens);
    RunWrites(voids, START, tokens + [token]);
    if token.EndTag? {
      EndLeaves(OpenTags(voids, tokens), token.tag);
    }
  }

  lemma {:induction false} EndLeaves(open: seq<string>, tag: string)
    ensures Leaves(open, tag, if Nearest(open, tag) == 0 then open else open[..Nearest(open, tag)])
  {
    forall i | 0 < i < |open| && open[i] == tag && NoneAbove(open, i, tag) ensures Nearest(open, tag) == i {
      NearestIs(open, tag, i);
    }
  }

  // ---------------------------------------------------------------------------
  // What is read off the tree
  // ---------------------------------------------------------------------------

  /** _text */
  function TextOf(node: Node): string
    decreases node
  {
    match node
    case Text(text) => text
    case Element(_, _, children) => AllText(children)
  }

  function AllText(nodes: seq<Node>): string
    decreases nodes
  {
    if nodes == [] then "" else AllText(nodes[..|nodes| - 1]) + TextOf(nodes[|nodes| - 1])
  }

  type Label = (string, Attrs)

  /** The labels of a node and its descendants, in document order. */
  function Outline(node: Node): seq<Label>
    decreases node
  {
    match node
    case Text(_) => []
    case Element(tag, attrs, children) => [(tag, attrs)] + AllOutline(children)
  }

  function AllOutline(nodes: seq<Node>): seq<Label>
    decreases nodes
  {
    if nodes == [] then [] else AllOutline(nodes[..|nodes| - 1]) + Outline(nodes[|nodes| - 1])
  }

  function CharsIn(marks: seq<Mark>): string {
    if marks == [] then ""
    else CharsIn(marks[..|marks| - 1]) + if marks[|marks| - 1].Chars? then marks[|marks| - 1].text else ""
  }

  function LabelsIn(marks: seq<Mark>): seq<Label> {
    if marks == [] then []
    else
      var m := marks[|marks| - 1];
      LabelsIn(marks[..|marks| - 1]) + if m.Open? then [(m.tag, m.attrs)] else []
  }

  function DataIn(tokens: seq<Token>): string {
    if tokens == [] then ""
    else DataIn(tokens[..|tokens| - 1]) + if tokens[|tokens| - 1].Data? then tokens[|tokens| - 1].text else ""
  }

  function StartsIn(tokens: seq<Token>): seq<Label> {
    if tokens == [] then []
    else
      var t := tokens[|tokens| - 1];
      StartsIn(tokens[..|tokens| - 1]) + if t.StartTag? || t.StartEndTag? then [(t.tag, DictOf(t.pairs))] else []
  }

  lemma {:induction false} ReadAppend(a: seq<Mark>, b: seq<Mark>)
    ensures CharsIn(a + b) == CharsIn(a) + CharsIn(b)
    ensures LabelsIn(a + b) == LabelsIn(a) + LabelsIn(b)
    decreases |b|
  {
    var n := |b| - 1;
    if n < 0 {
      assert a + b == a;
    } else {
      ReadAppend(a, b[..n]);
      assert (a + b)[..|a + b| - 1] == a + b[..n];
    }
  }

  lemma {:induction false} ReadOne(m: Mark)
    ensures CharsIn([m]) == if m.Chars? then m.text else ""
    ensures LabelsIn([m]) == if m.Open? then [(m.tag, m.attrs)] else []
  {
    assert [m][..0] == [];
  }

  lemma {:induction false} ReadNode(node: Node)
    ensures CharsIn(Marks(node)) == TextOf(node)
    ensures LabelsIn(Marks(node)) == Outline(node)
    decreases node
  {
    match node
    case Text(text) => ReadOne(Chars(text));
    case Element(tag, attrs, children) =>
      ReadNodes(children);
      ReadOne(Open(tag, attrs));
      ReadOne(Close(tag));
      ReadAppend([Open(tag, attrs)], AllMarks(children));
      ReadAppend([Open(tag, attrs)] + AllMarks(children), [Close(tag)]);
  }

  lemma {:induction false} ReadNodes(nodes: seq<Node>)
    ensures CharsIn(AllMarks(nodes)) == AllText(nodes)
    ensures LabelsIn(AllMarks(nodes)) == AllOutline(nodes)
    decreases nodes
  {
    if nodes != [] {
      var n := |nodes| - 1;
      ReadNodes(nodes[..n]);
      ReadNode(nodes[n]);
      ReadAppend(AllMarks(nodes[..n]), Marks(nodes[n]));
    }
  }

  lemma {:induction false} ReadEnds(open: seq<string>, depth: nat)
    requires depth <= |open|
    ensures CharsIn(Ends(open, depth)) == "" && LabelsIn(Ends(open, depth)) == []
    decreases |open|
  {
    var n := |open| - 1;
    if n >= depth {
      ReadEnds(open[..n], depth);
      ReadOne(Close(open[n]));
      ReadAppend([Close(open[n])], Ends(open[..n], depth));
    }
  }

  lemma {:induction false} ReadAppendChars(marks: seq<Mark>, text: string)
    ensures CharsIn(AppendChars(marks, text)) == CharsIn(marks) + text
    ensures LabelsIn(AppendChars(marks, text)) == LabelsIn(marks)
  {
    var n := |marks| - 1;
    if n >= 0 && marks[n].Chars? {
      SnocUnique(marks[..n], Chars(marks[n].text + text));
    } else {
      SnocUnique(marks, Chars(text));
    }
  }

  lemma {:induction false} ReadWrite(voids: set<string>, w: Writer, token: Token)
    ensures CharsIn(Write(voids, w, token).marks) == CharsIn(w.marks) + if token.Data? then token.text else ""
    ensures LabelsIn(Write(voids, w, token).marks) ==
            LabelsIn(w.marks) + if token.StartTag? || token.StartEndTag? then [(token.tag, DictOf(token.pairs))] else []
  {
    match token
    case StartTag(tag, pairs) => ReadOpened(w.marks, tag, DictOf(pairs));
    case StartEndTag(tag, pairs) => ReadOpened(w.marks, tag, DictOf(pairs));
    case EndTag(tag) =>
      var i := Nearest(w.open, tag);
      if i != 0 {
        ReadEnds(w.open, i);
        ReadAppend(w.marks, Ends(w.open, i));
      }
    case Data(text) => ReadAppendChars(w.marks, text);
  }

  lemma {:induction false} ReadOpened(marks: seq<Mark>, tag: string, attrs: Attrs)
    ensures CharsIn(marks + [Open(tag, attrs)]) == CharsIn(marks)
    ensures CharsIn(marks + [Open(tag, attrs), Close(tag)]) == CharsIn(marks)
    ensures LabelsIn(marks + [Open(tag, attrs)]) == LabelsIn(marks) + [(tag, attrs)]
    ensures LabelsIn(marks + [Open(tag, attrs), Close(tag)]) == LabelsIn(marks) + [(tag, attrs)]
  {
    ReadOne(Open(tag, attrs));
    ReadOne(Close(tag));
    ReadAppend(marks, [Open(tag, attrs)]);
    ReadAppend([Open(tag, attrs)], [Close(tag)]);
    ReadAppend(marks, [Open(tag, attrs), Close(tag)]);
    assert [Open(tag, attrs)] + [Close(tag)] == [Open(tag, attrs), Close(tag)];
  }

  lemma {:induction false} ReadWriteAll(voids: set<string>, tokens: seq<Token>)
    ensures CharsIn(WriteAll(voids, BLANK_PAGE, tokens).marks) == DataIn(tokens)
    ensures LabelsIn(WriteAll(voids, BLANK_PAGE, tokens).marks) == [(ROOT, map[])] + StartsIn(tokens)
  {
    if tokens == [] {
      ReadOne(Open(ROOT, map[]));
    } else {
      var n := |tokens| - 1;
      ReadWriteAll(voids, tokens[..n]);
      ReadWrite(voids, WriteAll(voids, BLANK_PAGE, tokens[..n]), tokens[n]);
    }
  }

  /** Every stream: the text of the tree is all its data, and its elements stand in arrival order. */
  lemma {:induction false} TreeKeepsTextAndOrder(voids: set<string>, tokens: seq<Token>)
    ensures var tree := TreeOf(Run(voids, START, tokens));
            TextOf(tree) == DataIn(tokens) && Outline(tree) == [(ROOT, map[])] + StartsIn(tokens)
  {
    var w := WriteAll(voids, BLANK_PAGE, tokens);
    TreeIsRepairedStream(voids, tokens);
    ReadNode(TreeOf(Run(voids, START, tokens)));
    ReadAppend(w.marks, Ends(w.open, 0));
    ReadEnds(w.open, 0);
    ReadWriteAll(voids, tokens);
  }

  // ---------------------------------------------------------------------------
  // Well-nested streams
  // ---------------------------------------------------------------------------

  /** The tags still open after the tokens; None once an end tag does not match. */
  function OpenAfter(voids: set<string>, tokens: seq<Token>): Option<seq<string>> {
    if tokens == [] then Some([])
    else
      var before := OpenAfter(voids, tokens[..|tokens| - 1]);
      if before.None? then None
      else
        var open := before.value;
        match tokens[|tokens| - 1]
        case StartTag(tag, _) => Some(if tag in voids then open else open + [tag])
        case EndTag(tag) => if open != [] && open[|open| - 1] == tag then Some(open[..|open| - 1]) else None
        case _ => before
  }

  predicate WellNested(voids: set<string>, tokens: seq<Token>) {
    OpenAfter(voids, tokens) == Some([])
  }

  /** The stream itself, with an element that cannot have content written as a start and an end. */
  function Canonical(voids: set<string>, marks: seq<Mark>, tokens: seq<Token>): seq<Mark> {
    if tokens == [] then marks
    else
      var before := Canonical(voids, marks, tokens[..|tokens| - 1]);
      match tokens[|tokens| - 1]
      case StartTag(tag, pairs) =>
        before + if tag in voids then [Open(tag, DictOf(pairs)), Close(tag)] else [Open(tag, DictOf(pairs))]
      case StartEndTag(tag, pairs) => before + [Open(tag, DictOf(pairs)), Close(tag)]
      case EndTag(tag) => before + [Close(tag)]
      case Data(text) => AppendChars(before, text)
  }

  /** A matching end tag closes the top element and no other. */
  lemma {:induction false} MatchingEnd(open: seq<string>, tag: string)
    requires open != [] && open[|open| - 1] == tag
    ensures var all := [ROOT] + open;
            Nearest(all, tag) == |open| && all[..|open|] == [ROOT] + open[..|open| - 1]
            && Ends(all, |open|) == [Close(tag)]
  {
    var all := [ROOT] + open;
    assert all[|all| - 1] == tag;
    assert Ends(all, |open|) == [Close(tag)] + Ends(all[..|open|], |open|);
  }

  /** While the nesting holds, the reference has nothing to repair. */
  lemma {:induction false} NothingToRepair(voids: set<string>, tokens: seq<Token>)
    requires OpenAfter(voids, tokens).Some?
    ensures WriteAll(voids, BLANK_PAGE, tokens) ==
            Writer([ROOT] + OpenAfter(voids, tokens).value, Canonical(voids, BLANK_PAGE.marks, tokens))
  {
    if tokens != [] {
      var n := |tokens| - 1;
      NothingToRepair(voids, tokens[..n]);
      var open := OpenAfter(voids, tokens[..n]).value;
      if tokens[n].EndTag? {
        MatchingEnd(open, tokens[n].tag);
      } else if tokens[n].StartTag? {
        Assoc([ROOT], open, [tokens[n].tag]);
      }
    }
  }

  lemma {:induction false} CanonicalTail(voids: set<string>, m: Mark, tokens: seq<Token>)
    requires m.Open?
    ensures Canonical(voids, [m], tokens) == [m] + Canonical(voids, [], tokens)
  {
    if tokens != [] {
      var n := |tokens| - 1;
      CanonicalTail(voids, m, tokens[..n]);
      var rest := Canonical(voids, [], tokens[..n]);
      match tokens[n]
      case Data(text) =>
        if rest != [] {
          AppendCharsTail([m], rest, text);
        } else {
          assert [m] + rest == [m];
        }
      case _ =>
    }
  }

  /** The elements the marks leave open; None once an end does not match. */
  function Balance(marks: seq<Mark>): Option<seq<string>> {
    if marks == [] then Some([])
    else
      var before := Balance(marks[..|marks| - 1]);
      if before.None? then None else BalanceStep(before.value, marks[|marks| - 1])
  }

  function BalanceStep(open: seq<string>, m: Mark): Option<seq<string>> {
    match m
    case Open(tag, _) => Some(open + [tag])
    case Close(tag) => if open != [] && open[|open| - 1] == tag then Some(open[..|open| - 1]) else None
    case Chars(_) => Some(open)
  }

  lemma {:induction false} BalanceSnoc(marks: seq<Mark>, m: Mark)
    ensures Balance(marks + [m]) == if Balance(marks).None? then None else BalanceStep(Balance(marks).value, m)
  {
    SnocUnique(marks, m);
  }

  lemma {:induction false} BalancePair(marks: seq<Mark>, tag: string, attrs: Attrs)
    ensures Balance(marks + [Open(tag, attrs), Close(tag)]) == Balance(marks)
  {
    BalanceSnoc(marks, Open(tag, attrs));
    BalanceSnoc(marks + [Open(tag, attrs)], Close(tag));
    assert marks + [Open(tag, attrs), Close(tag)] == marks + [Open(tag, attrs)] + [Close(tag)];
    if Balance(marks).Some? {
      SnocUnique(Balance(marks).value, tag);
    }
  }

  lemma {:induction false} BalanceChars(marks: seq<Mark>, text: string)
    ensures Balance(AppendChars(marks, text)) == Balance(marks)
  {
    var n := |marks| - 1;
    if n >= 0 && marks[n].Chars? {
      BalanceSnoc(marks[..n], Chars(marks[n].text + text));
    } else {
      BalanceSnoc(marks, Chars(text));
    }
  }

  lemma {:induction false} CanonicalBalance(voids: set<string>, tokens: seq<Token>)
    ensures Balance(Canonical(voids, [], tokens)) == OpenAfter(voids, tokens)
  {
    if tokens != [] {
      var n := |tokens| - 1;
      CanonicalBalance(voids, tokens[..n]);
      var before := Canonical(voids, [], tokens[..n]);
      match tokens[n]
      case StartTag(tag, pairs) =>
        BalancePair(before, tag, DictOf(pairs));
        BalanceSnoc(before, Open(tag, DictOf(pairs)));
      case StartEndTag(tag, pairs) => BalancePair(before, tag, DictOf(pairs));
      case EndTag(tag) => BalanceSnoc(before, Close(tag));
      case Data(text) => BalanceChars(before, text);
    }
  }

  /** A tree writes out balanced. */
  lemma {:induction false} NodeBalanced(before: seq<Mark>, node: Node)
    requires Balance(before).Some?
    ensures Balance(before + Marks(node)) == Balance(before)
    decreases node
  {
    match node
    case Text(text) => BalanceSnoc(before, Chars(text));
    case Element(tag, attrs, children) =>
      var entered := before + [Open(tag, attrs)];
      BalanceSnoc(before, Open(tag, attrs));
      NodesBalanced(entered, children);
      BalanceSnoc(entered + AllMarks(children), Close(tag));
      SnocUnique(Balance(before).value, tag);
      Reassociate4(before, [Open(tag, attrs)], AllMarks(children), [Close(tag)]);
      Assoc(before, [Open(tag, attrs)], AllMarks(children));
  }

  lemma {:induction false} NodesBalanced(before: seq<Mark>, nodes: seq<Node>)
    requires Balance(before).Some?
    ensures Balance(before + AllMarks(nodes)) == Balance(before)
    decreases nodes
  {
    if nodes == [] {
      assert before + AllMarks(nodes) == before;
    } else {
      var n := |nodes| - 1;
      NodesBalanced(before, nodes[..n]);
      NodeBalanced(before + AllMarks(nodes[..n]), nodes[n]);
      Assoc(before, AllMarks(nodes[..n]), Marks(nodes[n]));
    }
  }

  /** Writing the tree out gives the stream back exactly when the stream is well nested. */
  lemma {:induction false} RoundTripIffWellNested(voids: set<string>, tokens: seq<Token>)
    ensures var tree := TreeOf(Run(voids, START, tokens));
            tree.Element? && (AllMarks(tree.children) == Canonical(voids, [], tokens) <==> WellNested(voids, tokens))
  {
    var tree := TreeOf(Run(voids, START, tokens));
    CanonicalBalance(voids, tokens);
    NodesBalanced([], tree.children);
    assert [] + AllMarks(tree.children) == AllMarks(tree.children);
    if WellNested(voids, tokens) {
      WellNestedRoundTrip(voids, tokens);
    }
  }

  lemma {:induction false} WellNestedRoundTrip(voids: set<string>, tokens: seq<Token>)
    requires WellNested(voids, tokens)
    ensures AllMarks(TreeOf(Run(voids, START, tokens)).children) == Canonical(voids, [], tokens)
  {
    var tree := TreeOf(Run(voids, START, tokens));
    TreeIsRepairedStream(voids, tokens);
    NothingToRepair(voids, tokens);
    CanonicalTail(voids, Open(ROOT, map[]), tokens);
    assert Ends([ROOT], 0) == [Close(ROOT)];
    Peel(Open(tree.tag, tree.attrs), AllMarks(tree.children), Close(tree.tag),
         Open(ROOT, map[]), Canonical(voids, [], tokens), Close(ROOT));
  }

  lemma {:induction false} Peel(a: Mark, s: seq<Mark>, b: Mark, c: Mark, t: seq<Mark>, d: Mark)
    requires [a] + s + [b] == [c] + t + [d]
    ensures s == t
  {
    var whole := [a] + s + [b];
    assert s == whole[1..|whole| - 1];
    assert t == ([c] + t + [d])[1..|whole| - 1];
  }
}
