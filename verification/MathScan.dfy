/**
 * The math-span scanner: four delimiter classes, backslash escapes, and a left-to-right scan.
 * What a span is, is said by where the scan can stop, without saying how to search for it.
 */
module MathScan {
  import opened Prelude

  /** A UTF-16 code unit. */
  type Unit = c: int | 0 <= c < 0x1_0000

  type Source = seq<Unit>

  const DOLLAR: Unit := 0x24
  const BACKSLASH: Unit := 0x5c
  const NEWLINE: Unit := 0x0a
  const OPEN_BRACKET: Unit := 0x5b
  const CLOSE_BRACKET: Unit := 0x5d
  const OPEN_PAREN: Unit := 0x28
  const CLOSE_PAREN: Unit := 0x29

  predicate IsWs(c: Unit) {
    c == 0x20 || c == 0x09 || c == 0x0a || c == 0x0d || c == 0x0c || c == 0x0b
  }

  predicate IsDigit(c: Unit) {
    0x30 <= c <= 0x39
  }

  predicate At(s: Source, i: int, c: Unit) {
    0 <= i < |s| && s[i] == c
  }

  // ---------------------------------------------------------------------------
  // Escapes
  // ---------------------------------------------------------------------------

  /** Whether a scan that starts at i and skips the unit after every backslash stops at j. */
  predicate Live(s: Source, i: nat, j: nat)
    decreases j - i
  {
    i == j || (i < j && i < |s| && Live(s, i + (if s[i] == BACKSLASH then 2 else 1), j))
  }

  /** The places after a live one: past the pair of a backslash, else the next. */
  lemma {:induction false} LiveNext(s: Source, i: nat, j: nat)
    requires Live(s, i, j) && j < |s|
    ensures s[j] == BACKSLASH ==> Live(s, i, j + 2) && !Live(s, i, j + 1)
    ensures s[j] != BACKSLASH ==> Live(s, i, j + 1)
    decreases j - i
  {
    if i < j {
      LiveNext(s, i + (if s[i] == BACKSLASH then 2 else 1), j);
    } else if s[j] == BACKSLASH {
      assert !Live(s, j + 2, j + 1);
    }
  }

  // ---------------------------------------------------------------------------
  // The spans
  // ---------------------------------------------------------------------------

  /** A dollar at j closes inline math: content before it, no digit after it. */
  predicate ClosesInline(s: Source, j: nat) {
    && 0 < j < |s| && s[j] == DOLLAR
    && !IsWs(s[j - 1]) && s[j - 1] != DOLLAR
    && !(j + 1 < |s| && IsDigit(s[j + 1]))
  }

  /** s[..n] is $...$: it stops at the first live close, and no live newline comes before. */
  predicate InlineSpan(s: Source, n: nat) {
    && 1 < |s| && !IsWs(s[1])
    && 1 < n <= |s| && Live(s, 1, n - 1) && ClosesInline(s, n - 1)
    && forall k :: 1 <= k < n - 1 && Live(s, 1, k) ==> !ClosesInline(s, k) && s[k] != NEWLINE
  }

  /** s[..n] is $$...$$: content without a dollar. */
  predicate DisplaySpan(s: Source, n: nat) {
    && 4 < n <= |s| && s[n - 2] == DOLLAR && s[n - 1] == DOLLAR
    && forall k :: 2 <= k < n - 2 ==> s[k] != DOLLAR
  }

  /** The close of a bracket at j; a \] followed by another ] is not one. */
  predicate ClosesBracket(s: Source, close: Unit, j: nat) {
    && j + 1 < |s| && s[j] == BACKSLASH && s[j + 1] == close
    && !(close == CLOSE_BRACKET && At(s, j + 2, CLOSE_BRACKET))
  }

  predicate BracketSpan(s: Source, close: Unit, singleLine: bool, n: nat) {
    && 4 < n <= |s| && Live(s, 2, n - 2) && ClosesBracket(s, close, n - 2)
    && forall k :: 2 <= k < n - 2 && Live(s, 2, k) ==> !ClosesBracket(s, close, k) && (singleLine ==> s[k] != NEWLINE)
  }

  /** s[..n] is a math span of one of the four classes. */
  predicate SpanAt(s: Source, n: nat, display: bool) {
    if At(s, 0, DOLLAR) && At(s, 1, DOLLAR) then display && DisplaySpan(s, n)
    else if At(s, 0, DOLLAR) then !display && InlineSpan(s, n)
    else if At(s, 0, BACKSLASH) && At(s, 1, OPEN_BRACKET) then display && BracketSpan(s, CLOSE_BRACKET, false, n)
    else if At(s, 0, BACKSLASH) && At(s, 1, OPEN_PAREN) then !display && BracketSpan(s, CLOSE_PAREN, true, n)
    else false
  }

  /** A space, tab, line feed, carriage return, form feed or vertical tab. */
  predicate Blank(c: Unit) {
    c in {0x20, 0x09, 0x0a, 0x0d, 0x0c, 0x0b}
  }

  /** A dollar that ends what is before it: not after white space or a dollar, and not before a digit from 0 to 9. */
  predicate EndsMath(s: Source, j: nat) {
    && 1 <= j < |s| && s[j] == 0x24
    && !Blank(s[j - 1]) && s[j - 1] != 0x24
    && (j + 1 == |s| || s[j + 1] < 0x30 || 0x39 < s[j + 1])
  }

  /**
   * $...$: it starts without white space, its dollar is the first that ends it and is not escaped,
   * and no line ends in it but behind a backslash.
   */
  lemma {:induction false} InlineIs(s: Source, n: nat)
    ensures InlineSpan(s, n) <==>
              && 1 < |s| && !Blank(s[1]) && 1 < n <= |s| && Live(s, 1, n - 1) && EndsMath(s, n - 1)
              && (forall k :: 1 <= k < n - 1 && Live(s, 1, k) ==> !EndsMath(s, k) && s[k] != 0x0a)
    ensures InlineSpan(s, n) ==> forall k :: 1 <= k < n - 1 && s[k] == 0x0a ==> s[k - 1] == 0x5c
  {
    if InlineSpan(s, n) {
      forall k | 1 <= k < n - 1 && s[k] == 0x0a ensures s[k - 1] == 0x5c {
        NotLive(s, 1, k, n - 1);
      }
    }
  }

  /** A place that a scan steps over is the second of an escape pair. */
  lemma {:induction false} NotLive(s: Source, i: nat, k: nat, j: nat)
    requires Live(s, i, j) && i <= k < j <= |s| && !Live(s, i, k)
    ensures i < k && s[k - 1] == 0x5c
    decreases j - i
  {
    var next := i + (if s[i] == BACKSLASH then 2 else 1);
    if next <= k {
      NotLive(s, next, k, j);
    }
  }

  /** A close bracket pair that is not escaped, and no \] that another ] follows. */
  predicate EndsBracket(s: Source, close: Unit, j: nat) {
    && j + 2 <= |s| && s[j] == 0x5c && s[j + 1] == close
    && (close == 0x5d ==> j + 2 == |s| || s[j + 2] != 0x5d)
  }

  /** \[...\] and \(...\): content up to the first close, in one line only for the latter; $$...$$: content without a dollar. */
  lemma {:induction false} DisplayIs(s: Source, n: nat, close: Unit, singleLine: bool)
    ensures BracketSpan(s, close, singleLine, n) <==>
              && 5 <= n <= |s| && Live(s, 2, n - 2) && EndsBracket(s, close, n - 2)
              && (forall k :: 2 <= k < n - 2 && Live(s, 2, k) ==> !EndsBracket(s, close, k) && !(singleLine && s[k] == 0x0a))
    ensures DisplaySpan(s, n) <==>
              && 5 <= n <= |s| && s[n - 2] == 0x24 && s[n - 1] == 0x24
              && (forall k :: 2 <= k < n - 2 ==> s[k] != 0x24)
  {
  }

  /** Which delimiters open which class, and whether it is displayed. */
  lemma {:induction false} ClassesAre(s: Source, n: nat, display: bool)
    requires |s| > 1
    ensures SpanAt(s, n, display) <==>
              || (s[0] == 0x24 && s[1] == 0x24 && display && DisplaySpan(s, n))
              || (s[0] == 0x24 && s[1] != 0x24 && !display && InlineSpan(s, n))
              || (s[0] == 0x5c && s[1] == 0x5b && display && BracketSpan(s, 0x5d, false, n))
              || (s[0] == 0x5c && s[1] == 0x28 && !display && BracketSpan(s, 0x29, true, n))
  {
  }

  /** "$5 or $6" is no math, "$x$" is, and "$x$1" is not. */
  lemma {:induction false} Prices(n: nat, d: bool)
    ensures !SpanAt([0x24, 0x35, 0x20, 0x6f, 0x72, 0x20, 0x24, 0x36], n, d)
    ensures SpanAt([0x24, 0x78, 0x24], n, d) <==> n == 3 && !d
    ensures !SpanAt([0x24, 0x78, 0x24, 0x31], n, d)
  {
    InlineIs([0x24, 0x35, 0x20, 0x6f, 0x72, 0x20, 0x24, 0x36], n);
    var x: Source := [0x24, 0x78, 0x24];
    InlineIs(x, n);
    assert Live(x, 1, 1) && Live(x, 1, 2);
    InlineIs([0x24, 0x78, 0x24, 0x31], n);
  }

  // ---------------------------------------------------------------------------
  // Finding them
  // ---------------------------------------------------------------------------

  method InlineDollar(s: Source) returns (r: Option<nat>)
    ensures r.Some? ==> InlineSpan(s, r.value)
    ensures r.None? ==> forall n :: !InlineSpan(s, n)
  {
    if |s| < 2 || IsWs(s[1]) { return None; }
    var j := 1;
    while j < |s|
      invariant 1 <= j <= |s| + 1 && Live(s, 1, j)
      invariant forall k :: 1 <= k < j && k < |s| && Live(s, 1, k) ==> !ClosesInline(s, k) && s[k] != NEWLINE
    {
      LiveNext(s, 1, j);
      if s[j] == BACKSLASH { j := j + 2; continue; }
      if s[j] == NEWLINE { return None; }
      if s[j] != DOLLAR { j := j + 1; continue; }
      if IsWs(s[j - 1]) || s[j - 1] == DOLLAR { j := j + 1; continue; }
      if j + 1 < |s| && IsDigit(s[j + 1]) { j := j + 1; continue; }
      return Some(j + 1);
    }
    return None;
  }

  method DisplayDollar(s: Source) returns (r: Option<nat>)
    ensures r.Some? ==> DisplaySpan(s, r.value)
    ensures r.None? ==> forall n :: !DisplaySpan(s, n)
  {
    var j := 2;
    while j < |s|
      invariant 2 <= j
      invariant forall k :: 2 <= k < j && k < |s| ==> s[k] != DOLLAR
    {
      if s[j] != DOLLAR { j := j + 1; continue; }
      if !At(s, j + 1, DOLLAR) { return None; }
      if j == 2 { return None; }
      return Some(j + 2);
    }
    return None;
  }

  method Bracket(s: Source, close: Unit, singleLine: bool) returns (r: Option<nat>)
    ensures r.Some? ==> BracketSpan(s, close, singleLine, r.value)
    ensures r.None? ==> forall n :: !BracketSpan(s, close, singleLine, n)
  {
    var j := 2;
    while j < |s|
      invariant 2 <= j && Live(s, 2, j)
      invariant forall k :: 2 <= k < j && k < |s| && Live(s, 2, k) ==>
                  !ClosesBracket(s, close, k) && (singleLine ==> s[k] != NEWLINE)
    {
      LiveNext(s, 2, j);
      if s[j] == BACKSLASH && At(s, j + 1, close) {
        if close == CLOSE_BRACKET && At(s, j + 2, CLOSE_BRACKET) { j := j + 2; continue; }
        if j == 2 { return None; }
        return Some(j + 2);
      }
      if s[j] == BACKSLASH { j := j + 2; continue; }
      if s[j] == NEWLINE && singleLine { return None; }
      j := j + 1;
    }
    return None;
  }

  method MathSpanAt(s: Source) returns (r: Option<nat>, display: bool)
    ensures r.Some? ==> SpanAt(s, r.value, display)
    ensures r.None? ==> forall n, d :: !SpanAt(s, n, d)
  {
    if At(s, 0, DOLLAR) && At(s, 1, DOLLAR) {
      r := DisplayDollar(s);
      return r, true;
    }
    if At(s, 0, DOLLAR) {
      r := InlineDollar(s);
      return r, false;
    }
    if At(s, 0, BACKSLASH) && At(s, 1, OPEN_BRACKET) {
      r := Bracket(s, CLOSE_BRACKET, false);
      return r, true;
    }
    if At(s, 0, BACKSLASH) && At(s, 1, OPEN_PAREN) {
      r := Bracket(s, CLOSE_PAREN, true);
      return r, false;
    }
    return None, false;
  }

  /** At most one span starts at a place. */
  lemma {:induction false} SpanIsUnique(s: Source, n: nat, d: bool, m: nat, e: bool)
    requires SpanAt(s, n, d) && SpanAt(s, m, e)
    ensures n == m && d == e
  {
  }

  /** contentOf */
  function ContentOf(raw: Source): Source {
    if At(raw, 0, DOLLAR) && At(raw, 1, DOLLAR) then Inner(raw, 2)
    else if At(raw, 0, BACKSLASH) then Inner(raw, 2)
    else Inner(raw, 1)
  }

  /** The JavaScript slice(k, -k). */
  function Inner(raw: Source, k: nat): Source {
    if |raw| < 2 * k then [] else raw[k..|raw| - k]
  }

  predicate Delimiters(open: Source, close: Source, display: bool) {
    || (open == [DOLLAR] && close == [DOLLAR] && !display)
    || (open == [DOLLAR, DOLLAR] && close == [DOLLAR, DOLLAR] && display)
    || (open == [BACKSLASH, OPEN_BRACKET] && close == [BACKSLASH, CLOSE_BRACKET] && display)
    || (open == [BACKSLASH, OPEN_PAREN] && close == [BACKSLASH, CLOSE_PAREN] && !display)
  }

  /** A span is non-empty content between the delimiters of its class. */
  lemma {:induction false} SpanContent(s: Source, n: nat, display: bool) returns (open: Source, close: Source)
    requires n <= |s| && SpanAt(s, n, display)
    ensures Delimiters(open, close, display)
    ensures ContentOf(s[..n]) != [] && s[..n] == open + ContentOf(s[..n]) + close
  {
    var k := if At(s, 0, DOLLAR) && !At(s, 1, DOLLAR) then 1 else 2;
    var raw := s[..n];
    open, close := raw[..k], raw[n - k..];
  }

  // ---------------------------------------------------------------------------
  // Scanning a text
  // ---------------------------------------------------------------------------

  datatype Span = Span(start: nat, end: nat, raw: Source, display: bool)

  ghost predicate NoSpanAt(text: Source, i: nat)
    requires i <= |text|
  {
    forall n, d :: !SpanAt(text[i..], n, d)
  }

  /** From i to j the text is plain units and escape pairs, and no span opens at any of them. */
  ghost predicate Gap(text: Source, i: nat, j: nat)
    decreases j - i
  {
    i == j || (i < j && i < |text| && NoSpanAt(text, i) && Gap(text, i + (if text[i] == BACKSLASH then 2 else 1), j))
  }

  predicate IsSpan(text: Source, span: Span) {
    && span.start < span.end <= |text| && span.raw == text[span.start..span.end]
    && SpanAt(text[span.start..], span.end - span.start, span.display)
  }

  /** Read from i, the text is these spans with gaps around them; the last escape may lack its second unit. */
  ghost predicate Tiled(text: Source, i: nat, spans: seq<Span>)
    decreases spans
  {
    if spans == [] then Gap(text, i, |text|) || Gap(text, i, |text| + 1)
    else Gap(text, i, spans[0].start) && IsSpan(text, spans[0]) && Tiled(text, spans[0].end, spans[1..])
  }

  lemma {:induction false} GapGrows(text: Source, i: nat, j: nat)
    requires Gap(text, i, j) && j < |text| && NoSpanAt(text, j)
    ensures Gap(text, i, j + (if text[j] == BACKSLASH then 2 else 1))
    decreases j - i
  {
    var step := if text[j] == BACKSLASH then 2 else 1;
    if i < j {
      GapGrows(text, i + (if text[i] == BACKSLASH then 2 else 1), j);
    } else {
      assert Gap(text, j + step, j + step);
    }
  }

  /** The spans so far, with the gap the scan stands in. */
  ghost predicate TiledUpTo(text: Source, from: nat, spans: seq<Span>, i: nat)
    decreases spans
  {
    if spans == [] then Gap(text, from, i)
    else Gap(text, from, spans[0].start) && IsSpan(text, spans[0]) && TiledUpTo(text, spans[0].end, spans[1..], i)
  }

  lemma {:induction false} TiledUpToAdvances(text: Source, from: nat, spans: seq<Span>, i: nat)
    requires TiledUpTo(text, from, spans, i) && i < |text| && NoSpanAt(text, i)
    ensures TiledUpTo(text, from, spans, i + (if text[i] == BACKSLASH then 2 else 1))
    decreases spans
  {
    if spans == [] {
      GapGrows(text, from, i);
    } else {
      TiledUpToAdvances(text, spans[0].end, spans[1..], i);
    }
  }

  lemma {:induction false} TiledUpToSpan(text: Source, from: nat, spans: seq<Span>, i: nat, span: Span)
    requires TiledUpTo(text, from, spans, i) && IsSpan(text, span) && span.start == i
    ensures TiledUpTo(text, from, spans + [span], span.end)
    decreases spans
  {
    if spans == [] {
      assert ([] + [span])[1..] == [];
      assert Gap(text, span.end, span.end);
    } else {
      TiledUpToSpan(text, spans[0].end, spans[1..], i, span);
      assert (spans + [span])[1..] == spans[1..] + [span];
    }
  }

  lemma {:induction false} TiledUpToEnd(text: Source, from: nat, spans: seq<Span>, i: nat)
    requires TiledUpTo(text, from, spans, i) && |text| <= i <= |text| + 1
    ensures Tiled(text, from, spans)
    decreases spans
  {
    if spans != [] {
      TiledUpToEnd(text, spans[0].end, spans[1..], i);
    }
  }

  function FoundSpan(text: Source, i: nat, n: nat, display: bool): (span: Span)
    requires i < |text| && SpanAt(text[i..], n, display)
    ensures IsSpan(text, span) && span.start == i && span.display == display
  {
    assert 1 < n <= |text[i..]|;
    Span(i, i + n, text[i..i + n], display)
  }

  method ScanMathSpans(text: Source) returns (spans: seq<Span>)
    ensures Tiled(text, 0, spans)
  {
    spans := [];
    var i := 0;
    while i < |text|
      invariant i <= |text| + 1 && TiledUpTo(text, 0, spans, i)
      decreases |text| + 1 - i
    {
      var raw, display := None, false;
      if text[i] == DOLLAR || text[i] == BACKSLASH {
        raw, display := MathSpanAt(text[i..]);
      }
      assert raw.None? ==> NoSpanAt(text, i);
      if raw.Some? {
        var span := FoundSpan(text, i, raw.value, display);
        TiledUpToSpan(text, 0, spans, i, span);
        spans := spans + [span];
        i := span.end;
      } else {
        TiledUpToAdvances(text, 0, spans, i);
        i := i + if text[i] == BACKSLASH then 2 else 1;
      }
    }
    TiledUpToEnd(text, 0, spans, i);
  }

  // ---------------------------------------------------------------------------
  // The scan is determined by the text
  // ---------------------------------------------------------------------------

  /** A gap cannot run past the start of a span it stops at. */
  lemma {:induction false} GapStopsAtSpan(text: Source, i: nat, j: nat, k: nat)
    requires Gap(text, i, j) && Gap(text, i, k) && j < k && j < |text|
    ensures NoSpanAt(text, j)
    decreases j - i
  {
    if i < j {
      GapStopsAtSpan(text, i + (if text[i] == BACKSLASH then 2 else 1), j, k);
    }
  }

  /** Any two tilings of a text have the same spans: the result depends on the text alone. */
  lemma {:induction false} TilingIsUnique(text: Source, i: nat, a: seq<Span>, b: seq<Span>)
    requires Tiled(text, i, a) && Tiled(text, i, b)
    ensures a == b
    decreases a
  {
    if a != [] && b != [] {
      SameFirst(text, i, a[0], b[0]);
      TilingIsUnique(text, a[0].end, a[1..], b[1..]);
      assert a == [a[0]] + a[1..] && b == [b[0]] + b[1..];
    } else if a != [] {
      NoTailSpan(text, i, a[0].start);
    } else if b != [] {
      NoTailSpan(text, i, b[0].start);
    }
  }

  /** Two gaps from the same place that stop where a span opens stop at the same place. */
  lemma {:induction false} GapsAgree(text: Source, i: nat, j: nat, k: nat)
    requires Gap(text, i, j) && Gap(text, i, k) && j < |text| && k < |text|
    requires !NoSpanAt(text, j) && !NoSpanAt(text, k)
    ensures j == k
    decreases j - i
  {
    if i < j && i < k {
      GapsAgree(text, i + (if text[i] == BACKSLASH then 2 else 1), j, k);
    }
  }

  lemma {:induction false} SameFirst(text: Source, i: nat, a: Span, b: Span)
    requires Gap(text, i, a.start) && Gap(text, i, b.start) && IsSpan(text, a) && IsSpan(text, b)
    ensures a == b
  {
    GapsAgree(text, i, a.start, b.start);
    SpanIsUnique(text[a.start..], a.end - a.start, a.display, b.end - b.start, b.display);
  }

  /** No span opens inside a gap that runs to the end. */
  lemma {:induction false} NoTailSpan(text: Source, i: nat, j: nat)
    requires Gap(text, i, |text|) || Gap(text, i, |text| + 1)
    requires Gap(text, i, j) && j < |text|
    ensures NoSpanAt(text, j)
  {
    if Gap(text, i, |text|) {
      GapStopsAtSpan(text, i, j, |text|);
    } else {
      GapStopsAtSpan(text, i, j, |text| + 1);
    }
  }

  lemma {:induction false} GapForward(text: Source, i: nat, j: nat)
    requires Gap(text, i, j)
    ensures i <= j
  {
  }

  /** Spans come in order, do not overlap and lie inside the text. */
  lemma {:induction false} SpansAreOrdered(text: Source, i: nat, spans: seq<Span>, k: nat)
    requires Tiled(text, i, spans) && k < |spans|
    ensures i <= spans[k].start < spans[k].end <= |text|
    ensures k + 1 < |spans| ==> spans[k].end <= spans[k + 1].start
    decreases spans
  {
    GapForward(text, i, spans[0].start);
    if k > 0 {
      SpansAreOrdered(text, spans[0].end, spans[1..], k - 1);
    } else if |spans| > 1 {
      assert spans[1..][0] == spans[1];
      GapForward(text, spans[0].end, spans[1].start);
    }
  }
}
