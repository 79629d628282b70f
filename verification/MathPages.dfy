/**
 * Pre-rendering a page: protected ranges are merged and copied, and the runs between them are
 * scanned for math spans and rendered.
 */
module MathPages {
  import opened Prelude
  import opened MathScan

  datatype Range = Range(start: nat, end: nat)

  // ---------------------------------------------------------------------------
  // Merging the protected ranges
  // ---------------------------------------------------------------------------

  predicate Covers(r: Range, p: nat) {
    r.start <= p < r.end
  }

  predicate Covered(ranges: seq<Range>, p: nat) {
    ranges != [] && (Covered(ranges[..|ranges| - 1], p) || Covers(ranges[|ranges| - 1], p))
  }

  predicate NonEmpty(ranges: seq<Range>) {
    forall r :: r in ranges ==> r.start < r.end
  }

  predicate SortedByStart(ranges: seq<Range>) {
    forall i, j :: 0 <= i <= j < |ranges| ==> ranges[i].start <= ranges[j].start
  }

  /** Sorted, and a position that no range covers lies between any two. */
  predicate Separated(ranges: seq<Range>) {
    && (forall k :: 0 <= k < |ranges| ==> ranges[k].start < ranges[k].end)
    && forall k :: 0 <= k < |ranges| - 1 ==> ranges[k].end < ranges[k + 1].start
  }

  function Insert(r: Range, sorted: seq<Range>): seq<Range> {
    if sorted == [] then [r]
    else if sorted[|sorted| - 1].start <= r.start then sorted + [r]
    else Insert(r, sorted[..|sorted| - 1]) + [sorted[|sorted| - 1]]
  }

  /** The stable sort by start. */
  function Sorted(ranges: seq<Range>): seq<Range> {
    if ranges == [] then [] else Insert(ranges[|ranges| - 1], Sorted(ranges[..|ranges| - 1]))
  }

  lemma {:induction false} InsertCovers(r: Range, sorted: seq<Range>, p: nat)
    ensures Covered(Insert(r, sorted), p) <==> Covered(sorted, p) || Covers(r, p)
  {
    var n := |sorted| - 1;
    if n < 0 || sorted[n].start <= r.start {
      assert (sorted + [r])[..|sorted|] == sorted;
    } else {
      InsertCovers(r, sorted[..n], p);
      var rest := Insert(r, sorted[..n]);
      assert (rest + [sorted[n]])[..|rest|] == rest;
    }
  }

  lemma {:induction false} InsertElements(r: Range, sorted: seq<Range>)
    ensures forall x :: x in Insert(r, sorted) <==> x in sorted || x == r
  {
    var n := |sorted| - 1;
    if n >= 0 && sorted[n].start > r.start {
      InsertElements(r, sorted[..n]);
      assert sorted == sorted[..n] + [sorted[n]];
    }
  }

  lemma {:induction false} InsertSorted(r: Range, sorted: seq<Range>)
    requires SortedByStart(sorted)
    ensures SortedByStart(Insert(r, sorted))
  {
    var n := |sorted| - 1;
    if n >= 0 && sorted[n].start > r.start {
      InsertSorted(r, sorted[..n]);
      InsertElements(r, sorted[..n]);
      var rest := Insert(r, sorted[..n]);
      forall i | 0 <= i < |rest| ensures rest[i].start <= sorted[n].start {
        assert rest[i] in rest;
      }
    }
  }

  lemma {:induction false} SortedKeeps(ranges: seq<Range>)
    ensures SortedByStart(Sorted(ranges))
    ensures forall p: nat :: Covered(Sorted(ranges), p) <==> Covered(ranges, p)
    ensures forall x :: x in Sorted(ranges) <==> x in ranges
  {
    var n := |ranges| - 1;
    if n >= 0 {
      SortedKeeps(ranges[..n]);
      InsertSorted(ranges[n], Sorted(ranges[..n]));
      InsertElements(ranges[n], Sorted(ranges[..n]));
      forall p: nat { InsertCovers(ranges[n], Sorted(ranges[..n]), p); }
      assert ranges == ranges[..n] + [ranges[n]];
    }
  }

  /** The last range takes in one that starts inside it or touches it. */
  function Widen(merged: seq<Range>, r: Range): seq<Range>
    requires merged != []
  {
    var last := merged[|merged| - 1];
    merged[..|merged| - 1] + [Range(last.start, if last.end < r.end then r.end else last.end)]
  }

  lemma {:induction false} WidenKeeps(merged: seq<Range>, r: Range, p: nat)
    requires Separated(merged) && merged != [] && r.start < r.end
    requires merged[|merged| - 1].start <= r.start <= merged[|merged| - 1].end
    ensures Separated(Widen(merged, r))
    ensures Covered(Widen(merged, r), p) <==> Covered(merged, p) || Covers(r, p)
  {
    var n := |merged| - 1;
    assert Widen(merged, r)[..n] == merged[..n];
  }

  lemma {:induction false} PushKeeps(merged: seq<Range>, r: Range, p: nat)
    requires Separated(merged) && r.start < r.end
    requires merged != [] ==> merged[|merged| - 1].end < r.start
    ensures Separated(merged + [r])
    ensures Covered(merged + [r], p) <==> Covered(merged, p) || Covers(r, p)
  {
    assert (merged + [r])[..|merged|] == merged;
  }

  method MergeRanges(ranges: seq<Range>, ghost limit: nat) returns (merged: seq<Range>)
    requires SortedByStart(ranges) && NonEmpty(ranges)
    requires forall r :: r in ranges ==> r.end <= limit
    ensures Separated(merged)
    ensures forall p: nat :: Covered(merged, p) <==> Covered(ranges, p)
    ensures merged != [] ==> merged[|merged| - 1].end <= limit
  {
    merged := [];
    for i := 0 to |ranges|
      invariant Separated(merged)
      invariant forall p: nat :: Covered(merged, p) <==> Covered(ranges[..i], p)
      invariant i == 0 ==> merged == []
      invariant i > 0 ==> merged != [] && merged[|merged| - 1].start <= ranges[i - 1].start
      invariant merged != [] ==> merged[|merged| - 1].end <= limit
    {
      var range := ranges[i];
      var n := |merged| - 1;
      forall p: nat ensures Covered(ranges[..i + 1], p) <==> Covered(ranges[..i], p) || Covers(range, p) {
        assert ranges[..i + 1][..i] == ranges[..i];
      }
      if n >= 0 && range.start <= merged[n].end {
        forall p: nat { WidenKeeps(merged, range, p); }
        WidenKeeps(merged, range, 0);
        merged := Widen(merged, range);
      } else {
        forall p: nat { PushKeeps(merged, range, p); }
        PushKeeps(merged, range, 0);
        merged := merged + [range];
      }
    }
    assert ranges[..|ranges|] == ranges;
  }

  /** Separated ranges are determined by what they cover, so the merge depends on the union alone. */
  lemma {:induction false} SeparatedIsUnique(a: seq<Range>, b: seq<Range>)
    requires Separated(a) && Separated(b)
    requires forall p: nat :: Covered(a, p) <==> Covered(b, p)
    ensures a == b
    decreases |a|
  {
    if a == [] {
      NothingCovered(b);
    } else if b == [] {
      NothingCovered(a);
    } else {
      var n, m := |a| - 1, |b| - 1;
      LastEnds(a, b);
      LastEnds(b, a);
      LastStarts(a, b);
      LastStarts(b, a);
      forall p: nat ensures Covered(a[..n], p) <==> Covered(b[..m], p) {
        FrontCovers(a, p);
        FrontCovers(b, p);
      }
      SeparatedIsUnique(a[..n], b[..m]);
      assert a == a[..n] + [a[n]] && b == b[..m] + [b[m]];
    }
  }

  lemma {:induction false} NothingCovered(b: seq<Range>)
    requires Separated(b) && forall p: nat :: !Covered(b, p)
    ensures b == []
  {
    if b != [] {
      assert Covers(b[|b| - 1], b[|b| - 1].start);
      assert Covered(b, b[|b| - 1].start);
    }
  }

  /** Nothing is covered from the last end on, nor just before the last start. */
  lemma {:induction false} CoveredBounds(a: seq<Range>, p: nat)
    requires Separated(a) && a != []
    ensures Covered(a, p) ==> p < a[|a| - 1].end
    ensures p + 1 == a[|a| - 1].start ==> !Covered(a, p)
  {
    var n := |a| - 1;
    if n > 0 {
      assert a[..n][n - 1] == a[n - 1] && Separated(a[..n]);
      CoveredBounds(a[..n], p);
      assert a[n - 1].end < a[n].start;
    } else {
      assert !Covered(a[..0], p);
    }
  }

  lemma {:induction false} FrontCovers(a: seq<Range>, p: nat)
    requires Separated(a) && a != []
    ensures Covered(a[..|a| - 1], p) <==> Covered(a, p) && p < a[|a| - 1].start
  {
    var n := |a| - 1;
    if n > 0 {
      CoveredBounds(a[..n], p);
    }
  }

  lemma {:induction false} LastEnds(a: seq<Range>, b: seq<Range>)
    requires Separated(a) && Separated(b) && a != [] && b != []
    requires forall p: nat :: Covered(a, p) <==> Covered(b, p)
    ensures a[|a| - 1].end <= b[|b| - 1].end
  {
    var p := a[|a| - 1].end - 1;
    assert Covers(a[|a| - 1], p) && Covered(a, p);
    CoveredBounds(b, p);
  }

  lemma {:induction false} LastStarts(a: seq<Range>, b: seq<Range>)
    requires Separated(a) && Separated(b) && a != [] && b != []
    requires forall p: nat :: Covered(a, p) <==> Covered(b, p)
    requires a[|a| - 1].end == b[|b| - 1].end
    ensures a[|a| - 1].start <= b[|b| - 1].start
  {
    var s := a[|a| - 1].start;
    if 0 < s {
      CoveredBounds(a, s - 1);
      assert !Covered(b, s - 1);
      assert !Covers(b[|b| - 1], s - 1);
    }
  }

  /** A protected range lies inside one merged range. */
  lemma {:induction false} RangeIsInside(merged: seq<Range>, r: Range, p: nat) returns (m: Range)
    requires Separated(merged) && r.start <= p < r.end
    requires forall q :: r.start <= q <= p ==> Covered(merged, q)
    ensures m in merged && m.start <= r.start && p < m.end
    decreases p - r.start
  {
    if p == r.start {
      m := Holder(merged, p);
    } else {
      m := RangeIsInside(merged, r, p - 1);
      var last := Holder(merged, p);
      var i :| 0 <= i < |merged| && merged[i] == m;
      var j :| 0 <= j < |merged| && merged[j] == last;
      Apart(merged, i, j);
      Apart(merged, j, i);
    }
  }

  lemma {:induction false} Holder(merged: seq<Range>, p: nat) returns (m: Range)
    requires Covered(merged, p)
    ensures m in merged && Covers(m, p)
  {
    var n := |merged| - 1;
    if Covers(merged[n], p) {
      m := merged[n];
    } else {
      m := Holder(merged[..n], p);
    }
  }

  lemma {:induction false} Apart(merged: seq<Range>, i: nat, j: nat)
    requires Separated(merged) && i < |merged| && j < |merged|
    ensures i < j ==> merged[i].end < merged[j].start
    decreases j
  {
    if i < j - 1 {
      Apart(merged, i, j - 1);
    }
  }

  // ---------------------------------------------------------------------------
  // Rendering
  // ---------------------------------------------------------------------------

  /** What stands in the page for a raw span. */
  type Renderer = (Source, bool) -> Source

  function Raw(raw: Source, display: bool): Source {
    raw
  }

  /** katex on the content between the delimiters. */
  function Typeset(katex: Renderer): Renderer {
    (raw, display) => katex(ContentOf(raw), display)
  }

  /** The rest of a run from cursor on, with its spans replaced. */
  function RunOutput(text: Source, cursor: nat, spans: seq<Span>, render: Renderer): Source
    decreases spans
  {
    if spans == [] then Clip(text, cursor, |text|)
    else
      Clip(text, cursor, spans[0].start) + render(spans[0].raw, spans[0].display)
      + RunOutput(text, spans[0].end, spans[1..], render)
  }

  /** Replacing every span by itself gives the run back. */
  lemma {:induction false} RunIdentity(text: Source, i: nat, spans: seq<Span>)
    requires i <= |text| && Tiled(text, i, spans)
    ensures RunOutput(text, i, spans, Raw) == text[i..]
    decreases spans
  {
    if spans != [] {
      GapForward(text, i, spans[0].start);
      RunIdentity(text, spans[0].end, spans[1..]);
      Cut(text, i, spans[0].start, spans[0].end);
    }
  }

  /** Where the text between spans begins and ends: after span i - 1, up to span i. */
  function Between(text: Source, from: nat, spans: seq<Span>, i: nat): Source
    requires i <= |spans|
  {
    Clip(text, if i == 0 then from else spans[i - 1].end, if i == |spans| then |text| else spans[i].start)
  }

  /** Text, span, text, span, ..., text: every odd piece is what the renderer makes of its span. */
  function Pieces(text: Source, from: nat, spans: seq<Span>, render: Renderer): seq<Source> {
    seq(2 * |spans| + 1, i requires 0 <= i <= 2 * |spans| =>
      if i % 2 == 1 then render(spans[i / 2].raw, spans[i / 2].display) else Between(text, from, spans, i / 2))
  }

  lemma {:induction false} BetweenRest(text: Source, from: nat, spans: seq<Span>, j: nat)
    requires 0 < j <= |spans|
    ensures Between(text, from, spans, j) == Between(text, spans[0].end, spans[1..], j - 1)
  {
    assert j < |spans| ==> spans[j] == spans[1..][j - 1];
    assert j > 1 ==> spans[j - 1] == spans[1..][j - 2];
  }

  lemma {:induction false} PiecesSplit(text: Source, from: nat, spans: seq<Span>, render: Renderer)
    requires spans != []
    ensures Pieces(text, from, spans, render) ==
            [Clip(text, from, spans[0].start), render(spans[0].raw, spans[0].display)]
            + Pieces(text, spans[0].end, spans[1..], render)
  {
    var all, rest := Pieces(text, from, spans, render), Pieces(text, spans[0].end, spans[1..], render);
    forall i | 2 <= i < |all| ensures all[i] == rest[i - 2] {
      assert (i - 2) / 2 == i / 2 - 1 && (i - 2) % 2 == i % 2;
      if i % 2 == 0 {
        BetweenRest(text, from, spans, i / 2);
      } else {
        assert spans[i / 2] == spans[1..][i / 2 - 1];
      }
    }
  }

  /** A written run is its pieces, one after the other. */
  lemma {:induction false} RunIsPieces(text: Source, from: nat, spans: seq<Span>, render: Renderer)
    ensures RunOutput(text, from, spans, render) == Concat(Pieces(text, from, spans, render))
    decreases spans
  {
    if spans == [] {
      var pieces := Pieces(text, from, spans, render);
      assert |pieces| == 1 && pieces[0] == Between(text, from, spans, 0) == Clip(text, from, |text|);
      assert pieces[1..] == [] && Concat(pieces) == pieces[0] + Concat(pieces[1..]);
    } else {
      var gap, shown := Clip(text, from, spans[0].start), render(spans[0].raw, spans[0].display);
      var rest := Pieces(text, spans[0].end, spans[1..], render);
      PiecesSplit(text, from, spans, render);
      RunIsPieces(text, spans[0].end, spans[1..], render);
      assert ([gap, shown] + rest)[1..] == [shown] + rest && ([shown] + rest)[1..] == rest;
      Assoc(gap, shown, Concat(rest));
    }
  }

  /** What katex gets: the text between the delimiters, which are two units long but for a single dollar. */
  lemma {:induction false} TypesetIs(katex: Renderer, s: Source, n: nat, display: bool)
    requires n <= |s| && SpanAt(s, n, display)
    ensures var k := if s[0] == 0x24 && s[1] != 0x24 then 1 else 2;
            2 * k < n && Typeset(katex)(s[..n], display) == katex(s[k..n - k], display)
  {
    var open, close := SpanContent(s, n, display);
    var k := if s[0] == 0x24 && s[1] != 0x24 then 1 else 2;
    MiddleOf(s, n, k);
  }

  lemma {:induction false} MiddleOf(s: Source, n: nat, k: nat)
    requires 2 * k <= n <= |s|
    ensures |s[..n]| == n && s[..n][k..n - k] == s[k..n - k]
  {
  }

  lemma {:induction false} Cut(text: Source, i: nat, j: nat, k: nat)
    requires i <= j <= k <= |text|
    ensures Clip(text, i, j) + text[j..k] + text[k..] == text[i..]
  {
  }

  method RenderRun(text: Source, katex: Renderer) returns (out: Source, spans: seq<Span>)
    ensures Tiled(text, 0, spans)
    ensures out == RunOutput(text, 0, spans, Typeset(katex))
  {
    spans := ScanMathSpans(text);
    ghost var render := Typeset(katex);
    out := [];
    var cursor := 0;
    for k := 0 to |spans|
      invariant out + RunOutput(text, cursor, spans[k..], render) == RunOutput(text, 0, spans, render)
    {
      var span := spans[k];
      assert spans[k..][0] == span && spans[k..][1..] == spans[k + 1..];
      Assoc4(out, Clip(text, cursor, span.start), render(span.raw, span.display),
                  RunOutput(text, span.end, spans[k + 1..], render));
      out := out + Clip(text, cursor, span.start);
      out := out + katex(ContentOf(span.raw), span.display);
      cursor := span.end;
    }
    out := out + Clip(text, cursor, |text|);
  }

  /** Where the k-th run starts. */
  function RunStart(ranges: seq<Range>, k: nat): nat
    requires k <= |ranges|
  {
    if k == 0 then 0 else ranges[k - 1].end
  }

  /** The run before the k-th range, or after the last. */
  function RunText(html: Source, ranges: seq<Range>, k: nat): Source
    requires k <= |ranges|
  {
    Clip(html, RunStart(ranges, k), if k == |ranges| then |html| else ranges[k].start)
  }

  ghost predicate RunsOk(html: Source, ranges: seq<Range>, runs: seq<seq<Span>>) {
    |runs| <= |ranges| + 1 && forall k :: 0 <= k < |runs| ==> Tiled(RunText(html, ranges, k), 0, runs[k])
  }

  /** The page up to the end of the k-th range: rendered runs, and the ranges as they are. */
  function PageUpTo(html: Source, ranges: seq<Range>, runs: seq<seq<Span>>, render: Renderer, k: nat): Source
    requires k <= |ranges| && k <= |runs|
  {
    if k == 0 then []
    else
      PageUpTo(html, ranges, runs, render, k - 1)
      + RunOutput(RunText(html, ranges, k - 1), 0, runs[k - 1], render)
      + Clip(html, ranges[k - 1].start, ranges[k - 1].end)
  }

  function Page(html: Source, ranges: seq<Range>, runs: seq<seq<Span>>, render: Renderer): Source
    requires |runs| == |ranges| + 1
  {
    PageUpTo(html, ranges, runs, render, |ranges|) + RunOutput(RunText(html, ranges, |ranges|), 0, runs[|ranges|], render)
  }

  lemma {:induction false} PageUpToPrefix(html: Source, ranges: seq<Range>, runs: seq<seq<Span>>, spans: seq<Span>,
                                          render: Renderer, k: nat)
    requires k <= |ranges| && k <= |runs|
    ensures PageUpTo(html, ranges, runs + [spans], render, k) == PageUpTo(html, ranges, runs, render, k)
  {
    if k > 0 {
      PageUpToPrefix(html, ranges, runs, spans, render, k - 1);
    }
  }

  lemma {:induction false} PageUpToGrows(html: Source, ranges: seq<Range>, runs: seq<seq<Span>>, spans: seq<Span>,
                                         render: Renderer)
    requires |runs| < |ranges| && RunsOk(html, ranges, runs) && Tiled(RunText(html, ranges, |runs|), 0, spans)
    ensures RunsOk(html, ranges, runs + [spans])
    ensures var k := |runs|;
            PageUpTo(html, ranges, runs + [spans], render, k + 1) ==
            PageUpTo(html, ranges, runs, render, k) + RunOutput(RunText(html, ranges, k), 0, spans, render)
            + Clip(html, ranges[k].start, ranges[k].end)
  {
    PageUpToPrefix(html, ranges, runs, spans, render, |runs|);
  }

  /**
   * The whole page: found are the regular expressions' matches, in any order.  The ranges copied
   * are the maximal intervals of their union, and every run between them is scanned on its own.
   * The ranges and spans used are returned beside the page.
   */
  method PrerenderMath(html: Source, found: seq<Range>, katex: Renderer)
      returns (out: Source, ranges: seq<Range>, runs: seq<seq<Span>>)
    requires NonEmpty(found) && forall r :: r in found ==> r.end <= |html|
    ensures Separated(ranges) && forall p: nat :: Covered(ranges, p) <==> Covered(found, p)
    ensures |runs| == |ranges| + 1 && RunsOk(html, ranges, runs)
    ensures out == Page(html, ranges, runs, Typeset(katex))
  {
    SortedKeeps(found);
    ranges := MergeRanges(Sorted(found), |html|);
    ghost var render := Typeset(katex);
    out, runs := [], [];
    var cursor := 0;
    for k := 0 to |ranges|
      invariant |runs| == k && RunsOk(html, ranges, runs)
      invariant out == PageUpTo(html, ranges, runs, render, k)
      invariant cursor == RunStart(ranges, k)
    {
      var run, spans := RenderRun(Clip(html, cursor, ranges[k].start), katex);
      PageUpToGrows(html, ranges, runs, spans, render);
      runs := runs + [spans];
      out := out + run;
      out := out + Clip(html, ranges[k].start, ranges[k].end);
      cursor := ranges[k].end;
    }
    var run, spans := RenderRun(Clip(html, cursor, |html|), katex);
    PageUpToPrefix(html, ranges, runs, spans, render, |ranges|);
    runs := runs + [spans];
    out := out + run;
  }

  // ---------------------------------------------------------------------------
  // What a rendered page keeps
  // ---------------------------------------------------------------------------

  lemma {:induction false} RunIsItself(html: Source, ranges: seq<Range>, runs: seq<seq<Span>>, k: nat)
    requires RunsOk(html, ranges, runs) && k <= |ranges| && k < |runs|
    ensures RunOutput(RunText(html, ranges, k), 0, runs[k], Raw) == RunText(html, ranges, k)
  {
    RunIdentity(RunText(html, ranges, k), 0, runs[k]);
  }

  lemma {:induction false} RunStartsInOrder(ranges: seq<Range>, limit: nat, k: nat)
    requires Separated(ranges) && (ranges != [] ==> ranges[|ranges| - 1].end <= limit) && k < |ranges|
    ensures RunStart(ranges, k) <= ranges[k].start <= ranges[k].end <= limit
  {
    if k > 0 {
      Apart(ranges, k - 1, k);
    }
    if k + 1 < |ranges| {
      Apart(ranges, k, |ranges| - 1);
    }
  }

  lemma {:induction false} PageUpToIdentity(html: Source, ranges: seq<Range>, runs: seq<seq<Span>>, k: nat)
    requires k <= |ranges| && k <= |runs| && SelfUpTo(html, ranges, runs, k)
    ensures RunStart(ranges, k) <= |html| && PageUpTo(html, ranges, runs, Raw, k) == html[..RunStart(ranges, k)]
  {
    if k > 0 {
      PageUpToIdentity(html, ranges, runs, k - 1);
      assert InPlace(html, ranges, runs, k - 1);
      PageUpToStep(html, ranges, runs, k);
    }
  }

  /** The first k runs come in order, and each is written as it is. */
  predicate SelfUpTo(html: Source, ranges: seq<Range>, runs: seq<seq<Span>>, k: nat)
    requires k <= |ranges| && k <= |runs|
  {
    forall j :: 0 <= j < k ==> InPlace(html, ranges, runs, j)
  }

  predicate InPlace(html: Source, ranges: seq<Range>, runs: seq<seq<Span>>, j: nat)
    requires j < |ranges| && j < |runs|
  {
    && RunStart(ranges, j) <= ranges[j].start <= ranges[j].end <= |html|
    && RunOutput(RunText(html, ranges, j), 0, runs[j], Raw) == RunText(html, ranges, j)
  }

  lemma {:induction false} RunIsInPlace(html: Source, ranges: seq<Range>, runs: seq<seq<Span>>, j: nat)
    requires Separated(ranges) && (ranges != [] ==> ranges[|ranges| - 1].end <= |html|)
    requires RunsOk(html, ranges, runs) && j < |ranges| && j < |runs|
    ensures InPlace(html, ranges, runs, j)
  {
    RunStartsInOrder(ranges, |html|, j);
    RunIsItself(html, ranges, runs, j);
  }

  lemma {:induction false} RunsAreThemselves(html: Source, ranges: seq<Range>, runs: seq<seq<Span>>, k: nat)
    requires Separated(ranges) && (ranges != [] ==> ranges[|ranges| - 1].end <= |html|)
    requires RunsOk(html, ranges, runs) && k <= |ranges| && k <= |runs|
    ensures SelfUpTo(html, ranges, runs, k)
  {
    forall j | 0 <= j < k ensures InPlace(html, ranges, runs, j) {
      RunIsInPlace(html, ranges, runs, j);
    }
  }

  lemma {:induction false} PageUpToStep(html: Source, ranges: seq<Range>, runs: seq<seq<Span>>, k: nat)
    requires 0 < k <= |ranges| && k <= |runs|
    requires RunStart(ranges, k - 1) <= ranges[k - 1].start <= ranges[k - 1].end <= |html|
    requires PageUpTo(html, ranges, runs, Raw, k - 1) == html[..RunStart(ranges, k - 1)]
    requires RunOutput(RunText(html, ranges, k - 1), 0, runs[k - 1], Raw) == RunText(html, ranges, k - 1)
    ensures PageUpTo(html, ranges, runs, Raw, k) == html[..RunStart(ranges, k)]
  {
    Join(html, RunStart(ranges, k - 1), ranges[k - 1].start, ranges[k - 1].end);
  }

  lemma {:induction false} Join(html: Source, i: nat, j: nat, k: nat)
    requires i <= j <= k <= |html|
    ensures html[..i] + Clip(html, i, j) + Clip(html, j, k) == html[..k]
  {
  }

  lemma {:induction false} JoinEnd(html: Source, i: nat)
    requires i <= |html|
    ensures html[..i] + Clip(html, i, |html|) == html
  {
  }

  /** Rendering every span as itself gives the page back. */
  lemma {:induction false} PageIdentity(html: Source, ranges: seq<Range>, runs: seq<seq<Span>>)
    requires Separated(ranges) && (ranges != [] ==> ranges[|ranges| - 1].end <= |html|)
    requires |runs| == |ranges| + 1 && RunsOk(html, ranges, runs)
    ensures Page(html, ranges, runs, Raw) == html
  {
    var n := |ranges|;
    RunIsItself(html, ranges, runs, n);
    RunsAreThemselves(html, ranges, runs, n);
    PageUpToIdentity(html, ranges, runs, n);
    JoinEnd(html, RunStart(ranges, n));
  }

  /** The page before the k-th range: everything up to the range before it, and the run between the two. */
  function BeforeRange(html: Source, ranges: seq<Range>, runs: seq<seq<Span>>, render: Renderer, k: nat): Source
    requires k < |ranges| && k < |runs|
  {
    PageUpTo(html, ranges, runs, render, k) + RunOutput(RunText(html, ranges, k), 0, runs[k], render)
  }

  lemma {:induction false} VerbatimUpTo(html: Source, ranges: seq<Range>, runs: seq<seq<Span>>, render: Renderer,
                                        k: nat, m: nat)
      returns (before: Source, after: Source)
    requires k < m <= |ranges| && m <= |runs|
    ensures before == BeforeRange(html, ranges, runs, render, k)
    ensures PageUpTo(html, ranges, runs, render, m) == before + Clip(html, ranges[k].start, ranges[k].end) + after
    decreases m
  {
    var run := RunOutput(RunText(html, ranges, m - 1), 0, runs[m - 1], render);
    var kept := Clip(html, ranges[m - 1].start, ranges[m - 1].end);
    if m == k + 1 {
      before, after := PageUpTo(html, ranges, runs, render, k) + run, [];
    } else {
      var rest;
      before, rest := VerbatimUpTo(html, ranges, runs, render, k, m - 1);
      after := rest + run + kept;
      Assoc4(before + Clip(html, ranges[k].start, ranges[k].end), rest, run, kept);
    }
  }

  /** Whatever the renderer, a protected range stands in the page as it is, right after what comes before it. */
  lemma {:induction false} ProtectedVerbatim(html: Source, ranges: seq<Range>, runs: seq<seq<Span>>, render: Renderer, k: nat)
      returns (before: Source, after: Source)
    requires k < |ranges| && |runs| == |ranges| + 1
    ensures before == BeforeRange(html, ranges, runs, render, k)
    ensures Page(html, ranges, runs, render) == before + Clip(html, ranges[k].start, ranges[k].end) + after
  {
    var rest;
    before, rest := VerbatimUpTo(html, ranges, runs, render, k, |ranges|);
    var last := RunOutput(RunText(html, ranges, |ranges|), 0, runs[|ranges|], render);
    after := rest + last;
    Assoc(before + Clip(html, ranges[k].start, ranges[k].end), rest, last);
  }

  /** The page depends on the text, the protected positions and the renderer alone. */
  lemma {:induction false} PageIsDetermined(html: Source, a: seq<Range>, b: seq<Range>,
                                            aRuns: seq<seq<Span>>, bRuns: seq<seq<Span>>)
    requires Separated(a) && Separated(b) && forall p: nat :: Covered(a, p) <==> Covered(b, p)
    requires |aRuns| == |a| + 1 && RunsOk(html, a, aRuns) && |bRuns| == |b| + 1 && RunsOk(html, b, bRuns)
    ensures a == b && aRuns == bRuns
  {
    SeparatedIsUnique(a, b);
    forall k | 0 <= k < |aRuns| ensures aRuns[k] == bRuns[k] {
      TilingIsUnique(RunText(html, a, k), 0, aRuns[k], bRuns[k]);
    }
  }
}
