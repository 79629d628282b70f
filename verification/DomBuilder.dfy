/**
 * The document builder on real elements: each token changes the stack and the children of its top
 * in place.  The elements on the stack stand for the open frames of a path, everything they have
 * finished stands for its nodes, and every handler is proved to take the path's step.
 */
module DomBuilder {
  import opened Prelude
  import opened MarkupTree

  datatype Child = Sub(element: DomElement) | Chunk(text: string)

  class DomElement {
    const tag: string
    const attrs: Attrs
    const parent: DomElement?
    var children: seq<Child>

    constructor (t: string, a: Attrs, p: DomElement?)
      ensures tag == t && attrs == a && parent == p && children == []
    {
      tag, attrs, parent, children := t, a, p, [];
    }
  }

  // ---------------------------------------------------------------------------
  // What the elements stand for
  // ---------------------------------------------------------------------------

  /** A child of parent stands for a node; the elements below it all lie in the finished set. */
  ghost predicate IsNode(done: set<DomElement>, parent: DomElement, c: Child, node: Node)
    reads done
    decreases node
  {
    match node
    case Text(text) => c == Chunk(text)
    case Element(tag, attrs, children) =>
      && c.Sub? && c.element in done && c.element.parent == parent
      && c.element.tag == tag && c.element.attrs == attrs
      && AreNodes(done, c.element, c.element.children, children)
  }

  ghost predicate AreNodes(done: set<DomElement>, parent: DomElement, cs: seq<Child>, nodes: seq<Node>)
    reads done
    decreases nodes
  {
    && |cs| == |nodes|
    && (nodes != [] ==>
        && AreNodes(done, parent, cs[..|cs| - 1], nodes[..|nodes| - 1])
        && IsNode(done, parent, cs[|cs| - 1], nodes[|nodes| - 1]))
  }

  /** An open element: its finished children, then the one still open, if any. */
  ghost predicate IsFrame(done: set<DomElement>, e: DomElement, f: Frame, open: seq<Child>)
    reads done, e
  {
    && e.tag == f.tag && e.attrs == f.attrs
    && |e.children| == |f.finished| + |open|
    && AreNodes(done, e, e.children[..|f.finished|], f.finished)
    && e.children[|f.finished|..] == open
  }

  /** The stack stands for the path; each element is the last child of the one below it, and its parent link says so. */
  ghost predicate IsPath(done: set<DomElement>, stack: seq<DomElement>, path: seq<Frame>, open: seq<Child>)
    reads done, stack
    decreases |stack|
  {
    && |stack| == |path|
    && (stack != [] ==>
        var n := |stack| - 1;
        && stack[n] !in done && stack[n] !in stack[..n]
        && stack[n].parent == (if n == 0 then null else stack[n - 1])
        && IsFrame(done, stack[n], path[n], open)
        && IsPath(done, stack[..n], path[..n], [Sub(stack[n])]))
  }

  lemma {:induction false} NodeGrows(done: set<DomElement>, more: set<DomElement>, parent: DomElement, c: Child, node: Node)
    requires done <= more && IsNode(done, parent, c, node)
    ensures IsNode(more, parent, c, node)
    decreases node
  {
    if node.Element? {
      NodesGrow(done, more, c.element, c.element.children, node.children);
    }
  }

  lemma {:induction false} NodesGrow(done: set<DomElement>, more: set<DomElement>, parent: DomElement,
                                     cs: seq<Child>, nodes: seq<Node>)
    requires done <= more && AreNodes(done, parent, cs, nodes)
    ensures AreNodes(more, parent, cs, nodes)
    decreases nodes
  {
    if nodes != [] {
      NodesGrow(done, more, parent, cs[..|cs| - 1], nodes[..|nodes| - 1]);
      NodeGrows(done, more, parent, cs[|cs| - 1], nodes[|nodes| - 1]);
    }
  }

  lemma {:induction false} PathGrows(done: set<DomElement>, more: set<DomElement>, stack: seq<DomElement>,
                                     path: seq<Frame>, open: seq<Child>)
    requires done <= more && IsPath(done, stack, path, open)
    requires forall e :: e in stack ==> e !in more
    ensures IsPath(more, stack, path, open)
    decreases |stack|
  {
    if stack != [] {
      var n := |stack| - 1;
      NodesGrow(done, more, stack[n], stack[n].children[..|path[n].finished|], path[n].finished);
      PathGrows(done, more, stack[..n], path[..n], [Sub(stack[n])]);
    }
  }

  lemma {:induction false} OpenIsNotDone(done: set<DomElement>, stack: seq<DomElement>, path: seq<Frame>, open: seq<Child>)
    requires IsPath(done, stack, path, open)
    ensures forall e :: e in stack ==> e !in done
    decreases |stack|
  {
    if stack != [] {
      var n := |stack| - 1;
      OpenIsNotDone(done, stack[..n], path[..n], [Sub(stack[n])]);
      assert stack == stack[..n] + [stack[n]];
    }
  }

  lemma {:induction false} NodesSnoc(done: set<DomElement>, parent: DomElement, cs: seq<Child>, nodes: seq<Node>,
                                     c: Child, node: Node)
    requires AreNodes(done, parent, cs, nodes) && IsNode(done, parent, c, node)
    ensures AreNodes(done, parent, cs + [c], nodes + [node])
  {
    assert (cs + [c])[..|cs|] == cs && (nodes + [node])[..|nodes|] == nodes;
  }

  lemma {:induction false} ChildJoins(done: set<DomElement>, e: DomElement, f: Frame, c: Child, node: Node)
    requires IsFrame(done, e, f, []) && IsNode(done, e, c, node)
    ensures AreNodes(done, e, e.children + [c], f.finished + [node])
  {
    assert e.children[..|f.finished|] == e.children;
    NodesSnoc(done, e, e.children, f.finished, c, node);
  }

  /** An element taken off the stack is a finished node of the one below. */
  lemma {:induction false} PopElement(done: set<DomElement>, stack: seq<DomElement>, path: seq<Frame>)
    requires |stack| > 1 && IsPath(done, stack, path, [])
    ensures IsPath(done + {stack[|stack| - 1]}, stack[..|stack| - 1], CloseTop(path), [])
  {
    var n := |stack| - 1;
    var top, below := stack[n], stack[n - 1];
    var more := done + {top};
    var node := Element(path[n].tag, path[n].attrs, path[n].finished);
    OpenIsNotDone(done, stack[..n], path[..n], [Sub(top)]);
    PathGrows(done, more, stack[..n], path[..n], [Sub(top)]);
    assert stack[..n][n - 1] == below && path[..n][n - 1] == path[n - 1];
    assert IsFrame(more, below, path[n - 1], [Sub(top)]);
    FinishedIsNode(done, top, path[n]);
    NodeGrows(done + {top}, more, below, Sub(top), node);
    var k := |path[n - 1].finished|;
    NodesSnoc(more, below, below.children[..k], path[n - 1].finished, Sub(top), node);
    assert below.children == below.children[..k] + [Sub(top)];
    assert below.children[..k + 1] == below.children;
  }

  lemma {:induction false} FinishedIsNode(done: set<DomElement>, e: DomElement, f: Frame)
    requires IsFrame(done, e, f, []) && e.parent != null
    ensures IsNode(done + {e}, e.parent, Sub(e), Element(f.tag, f.attrs, f.finished))
  {
    assert e.children[..|f.finished|] == e.children;
    NodesGrow(done, done + {e}, e, e.children, f.finished);
  }

  lemma {:induction false} PopElements(done: set<DomElement>, stack: seq<DomElement>, path: seq<Frame>, depth: nat)
    requires 1 <= depth <= |stack| && IsPath(done, stack, path, [])
    ensures IsPath(done + (set e | e in stack[depth..]), stack[..depth], CloseDownTo(path, depth), [])
    decreases |stack|
  {
    var n := |stack| - 1;
    if n < depth {
      assert stack[..depth] == stack && done + (set e | e in stack[depth..]) == done;
    } else {
      PopElement(done, stack, path);
      PopElements(done + {stack[n]}, stack[..n], CloseTop(path), depth);
      assert stack[..n][..depth] == stack[..depth];
      assert stack[depth..] == stack[..n][depth..] + [stack[n]];
      assert done + {stack[n]} + (set e | e in stack[..n][depth..]) == done + (set e | e in stack[depth..]);
    }
  }

  /** The stack is the parent chain from the root to the current element, along last children. */
  lemma {:induction false} StackIsParentChain(done: set<DomElement>, stack: seq<DomElement>, path: seq<Frame>,
                                              open: seq<Child>, k: nat)
    requires k + 1 < |stack| && IsPath(done, stack, path, open)
    ensures stack[0].parent == null && stack[k + 1].parent == stack[k]
    ensures stack[k].children != [] && stack[k].children[|stack[k].children| - 1] == Sub(stack[k + 1])
    decreases |stack|
  {
    var n := |stack| - 1;
    if k + 1 < n {
      StackIsParentChain(done, stack[..n], path[..n], [Sub(stack[n])], k);
    } else {
      assert stack[..n][n - 1] == stack[k];
      RootHasNoParent(done, stack, path, open);
    }
  }

  lemma {:induction false} RootHasNoParent(done: set<DomElement>, stack: seq<DomElement>, path: seq<Frame>, open: seq<Child>)
    requires stack != [] && IsPath(done, stack, path, open)
    ensures stack[0].parent == null
    decreases |stack|
  {
    var n := |stack| - 1;
    if n > 0 {
      RootHasNoParent(done, stack[..n], path[..n], [Sub(stack[n])]);
    }
  }

  lemma {:induction false} OpenTag(done: set<DomElement>, stack: seq<DomElement>, path: seq<Frame>, open: seq<Child>, i: nat)
    requires i < |stack| && IsPath(done, stack, path, open)
    ensures i < |path| && Tags(path)[i] == stack[i].tag
    decreases |stack|
  {
    var n := |stack| - 1;
    if i < n {
      OpenTag(done, stack[..n], path[..n], [Sub(stack[n])], i);
    }
  }

  lemma {:induction false} StackTags(done: set<DomElement>, stack: seq<DomElement>, path: seq<Frame>, open: seq<Child>)
    requires IsPath(done, stack, path, open)
    ensures |Tags(path)| == |stack| && forall i :: 0 <= i < |stack| ==> Tags(path)[i] == stack[i].tag
  {
    forall i | 0 <= i < |stack| ensures Tags(path)[i] == stack[i].tag {
      OpenTag(done, stack, path, open, i);
    }
  }

  /** A new element that is already the last child of the top may be pushed. */
  lemma {:induction false} PushedIsPath(done: set<DomElement>, stack: seq<DomElement>, path: seq<Frame>, e: DomElement)
    requires stack != [] && IsPath(done, stack, path, [Sub(e)])
    requires e !in done && e !in stack && e.parent == stack[|stack| - 1] && e.children == []
    ensures IsPath(done, stack + [e], path + [Frame(e.tag, e.attrs, [])], [])
  {
    var n := |stack|;
    assert (stack + [e])[..n] == stack && (path + [Frame(e.tag, e.attrs, [])])[..n] == path;
    assert e.children[..0] == [];
  }

  lemma {:induction false} TextJoins(done: set<DomElement>, e: DomElement, f: Frame, text: string)
    requires IsFrame(done, e, f, [])
    ensures var n := |e.children| - 1;
            AreNodes(done, e,
                     if n >= 0 && e.children[n].Chunk? then e.children[..n] + [Chunk(e.children[n].text + text)]
                     else e.children + [Chunk(text)],
                     AddText(f.finished, text))
  {
    var n := |e.children| - 1;
    assert e.children[..|f.finished|] == e.children;
    assert n >= 0 ==> IsNode(done, e, e.children[n], f.finished[n]);
    if n >= 0 && e.children[n].Chunk? {
      var joined := e.children[n].text + text;
      NodesSnoc(done, e, e.children[..n], f.finished[..n], Chunk(joined), Text(joined));
    } else {
      NodesSnoc(done, e, e.children, f.finished, Chunk(text), Text(text));
    }
  }

  class TreeBuilder {
    const voids: set<string>
    const root: DomElement
    var stack: seq<DomElement>
    ghost var done: set<DomElement>
    ghost var path: seq<Frame>

    ghost predicate Valid()
      reads this, done, stack
    {
      stack != [] && stack[0] == root && IsPath(done, stack, path, [])
    }

    /** Whatever is on the stack was there before or is new. */
    twostate predicate NothingStale(before: seq<DomElement>)
      reads this
    {
      forall e :: e in stack ==> e in before || fresh(e)
    }

    function Top(): DomElement
      requires stack != []
      reads this
    {
      stack[|stack| - 1]
    }

    constructor (v: set<string>)
      ensures Valid() && path == START && voids == v
      ensures fresh(root) && stack == [root] && done == {}
    {
      var e := new DomElement(ROOT, map[], null);
      voids := v;
      root, stack, done, path := e, [e], {}, START;
    }

    /** The top of the stack gets new children, which stand for new nodes of its frame. */
    method Update(children: seq<Child>, ghost nodes: seq<Node>)
      requires Valid() && AreNodes(done, Top(), children, nodes)
      modifies this`path, Top()`children
      ensures Valid() && path == old(path)[..|old(path)| - 1] + [old(path)[|old(path)| - 1].(finished := nodes)]
      ensures Top().children == children
    {
      ghost var n := |stack| - 1;
      var top := Top();
      top.children := children;
      path := path[..n] + [path[n].(finished := nodes)];
      assert path[..n] == old(path)[..n];
      assert top.children[..|nodes|] == children;
    }

    ghost method Grow(more: set<DomElement>)
      requires Valid() && done <= more
      requires forall e :: e in stack ==> e !in more
      modifies this`done
      ensures Valid() && done == more
    {
      PathGrows(done, more, stack, path, []);
      done := more;
    }

    /** A finished child joins the top of the stack. */
    method Attach(c: Child, ghost node: Node)
      requires Valid() && IsNode(done, Top(), c, node)
      modifies this`path, Top()`children
      ensures Valid() && path == AddChild(old(path), node)
      ensures Top().children == old(Top().children) + [c]
    {
      ChildJoins(done, Top(), path[|path| - 1], c, node);
      Update(Top().children + [c], path[|path| - 1].finished + [node]);
    }

    /** The element's last child is a new one with this tag, these attributes and no children, whose parent it is. */
    twostate predicate Adopts(e: DomElement, before: seq<Child>, tag: string, attrs: Attrs)
      reads *
    {
      && |e.children| == |before| + 1 && e.children[..|before|] == before && e.children[|before|].Sub?
      && var child := e.children[|before|].element;
         fresh(child) && child.tag == tag && child.attrs == attrs && child.parent == e && child.children == []
    }

    method AddElement(tag: string, attrs: Attrs)
      requires Valid()
      modifies this`done, this`path, Top()`children
      ensures Valid() && path == AddChild(old(path), Element(tag, attrs, []))
      ensures Adopts(old(Top()), old(Top().children), tag, attrs)
    {
      var e := new DomElement(tag, attrs, Top());
      OpenIsNotDone(done, stack, path, []);
      Grow(done + {e});
      assert AreNodes(done, e, e.children, []);
      Attach(Sub(e), Element(tag, attrs, []));
    }

    method PushElement(tag: string, attrs: Attrs)
      requires Valid()
      modifies this`stack, this`path, Top()`children
      ensures Valid() && path == old(path) + [Frame(tag, attrs, [])]
      ensures NothingStale(old(stack)) && Adopts(old(Top()), old(Top().children), tag, attrs)
      ensures Sub(Top()) == old(Top()).children[|old(Top().children)|] && stack == old(stack) + [Top()]
    {
      var top := Top();
      var e := new DomElement(tag, attrs, top);
      ghost var k := |path[|path| - 1].finished|;
      assert top.children[..k] == top.children;
      top.children := top.children + [Sub(e)];
      assert top.children[..k] == old(top.children) && top.children[k..] == [Sub(e)];
      assert IsFrame(done, top, path[|path| - 1], [Sub(e)]);
      PushedIsPath(done, stack, path, e);
      stack := stack + [e];
      path := path + [Frame(tag, attrs, [])];
    }

    method HandleStartTag(tag: string, pairs: seq<(string, Option<string>)>)
      requires Valid()
      modifies this, Top()`children
      ensures Valid() && path == Step(voids, old(path), StartTag(tag, pairs))
      ensures NothingStale(old(stack)) && Adopts(old(Top()), old(Top().children), tag, DictOf(pairs))
      ensures tag in voids ==> stack == old(stack)
      ensures tag !in voids ==>
                stack == old(stack) + [Top()] && Sub(Top()) == old(Top()).children[|old(Top().children)|]
    {
      if tag in voids {
        AddElement(tag, DictOf(pairs));
      } else {
        PushElement(tag, DictOf(pairs));
      }
    }

    method HandleStartEndTag(tag: string, pairs: seq<(string, Option<string>)>)
      requires Valid()
      modifies this`done, this`path, Top()`children
      ensures Valid() && path == Step(voids, old(path), StartEndTag(tag, pairs))
      ensures Adopts(old(Top()), old(Top().children), tag, DictOf(pairs))
    {
      AddElement(tag, DictOf(pairs));
    }

    method CutStack(depth: nat)
      requires Valid() && 1 <= depth <= |stack|
      modifies this`stack, this`done, this`path
      ensures Valid() && path == CloseDownTo(old(path), depth) && NothingStale(old(stack))
      ensures stack == old(stack)[..depth]
    {
      PopElements(done, stack, path, depth);
      done := done + (set e | e in stack[depth..]);
      path := CloseDownTo(path, depth);
      stack := stack[..depth];
    }

    /** Close down to the nearest open element with this tag, whatever is still open inside it; a stray end is ignored. */
    method HandleEndTag(tag: string)
      requires Valid()
      modifies this
      ensures Valid() && path == Step(voids, old(path), EndTag(tag)) && NothingStale(old(stack))
      ensures (forall k :: 0 < k < |old(stack)| ==> old(stack)[k].tag != tag) ==> stack == old(stack) && path == old(path)
      ensures forall i :: (0 < i < |old(stack)| && old(stack)[i].tag == tag
                           && (forall k :: i < k < |old(stack)| ==> old(stack)[k].tag != tag)) ==> stack == old(stack)[..i]
    {
      var i := Find(tag);
      if i > 0 {
        CutStack(i);
      }
    }

    /** The loop from the top of the stack down to the nearest element with the tag, the root left out. */
    method Find(tag: string) returns (i: nat)
      requires Valid()
      ensures i < |stack| && i == Nearest(Tags(path), tag)
      ensures i > 0 ==> stack[i].tag == tag
      ensures forall k :: i < k < |stack| ==> stack[k].tag != tag
    {
      StackTags(done, stack, path, []);
      i := |stack| - 1;
      while i > 0 && stack[i].tag != tag
        invariant i < |stack|
        invariant forall k :: i < k < |stack| ==> stack[k].tag != tag
      {
        i := i - 1;
      }
      NearestIs(Tags(path), tag, i);
    }

    method HandleData(text: string)
      requires Valid()
      modifies this`path, Top()`children
      ensures Valid() && path == Step(voids, old(path), Data(text))
    {
      var children := Top().children;
      var n := |children| - 1;
      TextJoins(done, Top(), path[|path| - 1], text);
      if n >= 0 && children[n].Chunk? {
        Update(children[..n] + [Chunk(children[n].text + text)], AddText(path[|path| - 1].finished, text));
      } else {
        Update(children + [Chunk(text)], AddText(path[|path| - 1].finished, text));
      }
    }
  }

  // ---------------------------------------------------------------------------
  // Parsing a page and reading it back
  // ---------------------------------------------------------------------------

  method Feed(builder: TreeBuilder, token: Token)
    requires builder.Valid()
    modifies builder, builder.Top()`children
    ensures builder.Valid() && builder.path == Step(builder.voids, old(builder.path), token)
    ensures builder.NothingStale(old(builder.stack))
  {
    match token
    case StartTag(tag, pairs) => builder.HandleStartTag(tag, pairs);
    case StartEndTag(tag, pairs) => builder.HandleStartEndTag(tag, pairs);
    case EndTag(tag) => builder.HandleEndTag(tag);
    case Data(text) => builder.HandleData(text);
  }

  /** _parse_dom: the root's elements stand for the tree of the whole stream. */
  method ParseDom(voids: set<string>, tokens: seq<Token>) returns (root: DomElement, ghost done: set<DomElement>)
    ensures AreNodes(done, root, root.children, TreeOf(Run(voids, START, tokens)).children)
  {
    var builder := new TreeBuilder(voids);
    assert tokens[..0] == [];
    for i := 0 to |tokens|
      invariant builder.Valid() && builder.voids == voids
      invariant builder.path == Run(voids, START, tokens[..i])
      invariant forall e :: e in builder.stack ==> fresh(e)
    {
      assert builder.Top() in builder.stack;
      Feed(builder, tokens[i]);
      assert tokens[..i + 1][..i] == tokens[..i];
    }
    assert tokens[..|tokens|] == tokens;
    root := builder.root;
    done := builder.done + (set e | e in builder.stack[1..]);
    ClosedPage(builder.done, builder.stack, builder.path);
  }

  lemma {:induction false} ClosedPage(done: set<DomElement>, stack: seq<DomElement>, path: seq<Frame>)
    requires stack != [] && IsPath(done, stack, path, [])
    ensures path != []
    ensures AreNodes(done + (set e | e in stack[1..]), stack[0], stack[0].children, TreeOf(path).children)
  {
    PopElements(done, stack, path, 1);
    var root := CloseDownTo(path, 1);
    assert stack[..1][0] == stack[0];
    assert stack[0].children[..|root[0].finished|] == stack[0].children;
  }

  lemma {:induction false} NodesAt(done: set<DomElement>, parent: DomElement, cs: seq<Child>, nodes: seq<Node>, i: nat)
    requires i < |nodes| && AreNodes(done, parent, cs, nodes)
    ensures i < |cs| && IsNode(done, parent, cs[i], nodes[i])
    decreases nodes
  {
    if i < |nodes| - 1 {
      NodesAt(done, parent, cs[..|cs| - 1], nodes[..|nodes| - 1], i);
    }
  }

  /** _text, on the elements that stand for the nodes below one. */
  method TextBelow(ghost done: set<DomElement>, e: DomElement, ghost nodes: seq<Node>) returns (s: string)
    requires AreNodes(done, e, e.children, nodes)
    ensures s == AllText(nodes)
    decreases nodes
  {
    s := "";
    assert nodes[..0] == [];
    for i := 0 to |e.children|
      invariant s == AllText(nodes[..i])
    {
      NodesAt(done, e, e.children, nodes, i);
      assert nodes[..i + 1][..i] == nodes[..i];
      match e.children[i]
      case Chunk(text) =>
        s := s + text;
      case Sub(child) =>
        var below := TextBelow(done, child, nodes[i].children);
        s := s + below;
    }
    assert nodes[..|nodes|] == nodes;
  }

  function Labels(es: seq<DomElement>): seq<Label> {
    if es == [] then [] else Labels(es[..|es| - 1]) + [(es[|es| - 1].tag, es[|es| - 1].attrs)]
  }

  lemma {:induction false} LabelsAppend(a: seq<DomElement>, b: seq<DomElement>)
    ensures Labels(a + b) == Labels(a) + Labels(b)
    decreases |b|
  {
    if b == [] {
      assert a + b == a;
    } else {
      LabelsAppend(a, b[..|b| - 1]);
      assert (a + b)[..|a + b| - 1] == a + b[..|b| - 1];
    }
  }

  /** _descendants, as the list of what it yields. */
  method Descendants(ghost done: set<DomElement>, e: DomElement, ghost nodes: seq<Node>) returns (found: seq<DomElement>)
    requires AreNodes(done, e, e.children, nodes)
    ensures Labels(found) == AllOutline(nodes)
    decreases nodes
  {
    found := [];
    assert nodes[..0] == [];
    for i := 0 to |e.children|
      invariant Labels(found) == AllOutline(nodes[..i])
    {
      NodesAt(done, e, e.children, nodes, i);
      assert nodes[..i + 1][..i] == nodes[..i];
      if e.children[i].Sub? {
        var child := e.children[i].element;
        var below := Descendants(done, child, nodes[i].children);
        LabelsAppend(found, [child] + below);
        LabelsAppend([child], below);
        LabelsOne(child);
        found := found + ([child] + below);
      }
    }
    assert nodes[..|nodes|] == nodes;
  }

  lemma {:induction false} LabelsOne(e: DomElement)
    ensures Labels([e]) == [(e.tag, e.attrs)]
  {
    assert [e][..0] == [];
  }

  /** Whatever the stream, the page's text is all its data and its elements come in arrival order. */
  method ReadPage(voids: set<string>, tokens: seq<Token>) returns (text: string, elements: seq<DomElement>)
    ensures text == DataIn(tokens)
    ensures Labels(elements) == StartsIn(tokens)
  {
    var root, done := ParseDom(voids, tokens);
    ghost var tree := TreeOf(Run(voids, START, tokens));
    text := TextBelow(done, root, tree.children);
    elements := Descendants(done, root, tree.children);
    TreeKeepsTextAndOrder(voids, tokens);
    assert Outline(tree) == [(tree.tag, tree.attrs)] + AllOutline(tree.children);
    assert AllOutline(tree.children) == Outline(tree)[1..];
  }
}
