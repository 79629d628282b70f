/**
 * Physical lines of a byte string under the PEP 278 universal-newline rule: LF, CR and CRLF each
 * end a line, and a last line without a terminator counts.  `Lines` is the reference; the two
 * splitters of the event store are proved equal to it.
 */
module PhysicalLines {
  import opened Prelude

  newtype byte = b: int | 0 <= b < 256
  type Bytes = seq<byte>

  const LF: byte := 10
  const CR: byte := 13

  predicate IsTerm(b: byte) {
    b == LF || b == CR
  }

  /** The reference reader: one byte at a time, a CR directly before an LF belongs to it. */
  function Lines(s: Bytes): seq<Bytes> {
    if s == [] then []
    else if s[0] == CR && |s| > 1 && s[1] == LF then Lines(s[1..])
    else if IsTerm(s[0]) then [[]] + Lines(s[1..])
    else Prefixed([s[0]], Lines(s[1..]))
  }

  /** Put bytes in front of the first line, which may not exist yet. */
  function Prefixed(front: Bytes, lines: seq<Bytes>): seq<Bytes> {
    if lines == [] then [front] else [front + lines[0]] + lines[1..]
  }

  lemma {:induction false} PrefixedAppend(front: Bytes, a: seq<Bytes>, b: seq<Bytes>)
    requires a != []
    ensures Prefixed(front, a + b) == Prefixed(front, a) + b
  {
    assert (a + b)[1..] == a[1..] + b;
  }

  predicate EndsOnBoundary(s: Bytes) {
    s == [] || IsTerm(s[|s| - 1])
  }

  predicate LfEnded(s: Bytes) {
    s == [] || s[|s| - 1] == LF
  }

  /** Gluing t after s would fuse s's final CR and t's first LF into one terminator. */
  predicate SeamSplitsCrLf(s: Bytes, t: Bytes) {
    s != [] && t != [] && s[|s| - 1] == CR && t[0] == LF
  }

  /** Offset i of s is a line boundary: a line ends right before it. */
  predicate Boundary(s: Bytes, i: nat) {
    i <= |s| && EndsOnBoundary(s[..i]) && !SeamSplitsCrLf(s[..i], s[i..])
  }

  lemma {:induction false} LinesNonEmpty(s: Bytes)
    requires s != []
    ensures Lines(s) != []
  {
    if s[0] == CR && |s| > 1 && s[1] == LF {
      LinesNonEmpty(s[1..]);
    }
  }

  /** Lines distribute over concatenation at a boundary. */
  lemma {:induction false} LinesAppend(a: Bytes, b: Bytes)
    requires EndsOnBoundary(a) && !SeamSplitsCrLf(a, b)
    ensures Lines(a + b) == Lines(a) + Lines(b)
  {
    if a == [] {
      assert a + b == b;
    } else {
      assert (a + b)[1..] == a[1..] + b;
      if |a| == 1 {
        assert a[1..] == [];
        assert a[1..] + b == b;
      } else {
        LinesAppend(a[1..], b);
        LinesNonEmpty(a[1..]);
        PrefixedAppend([a[0]], Lines(a[1..]), Lines(b));
      }
    }
  }

  /** A CR|LF seam loses exactly the empty line that b alone would start with. */
  lemma {:induction false} LinesAppendSeam(a: Bytes, b: Bytes)
    requires SeamSplitsCrLf(a, b)
    ensures Lines(b) == [[]] + Lines(b[1..])
    ensures Lines(a + b) == Lines(a) + Lines(b)[1..]
  {
    if |a| == 1 {
      assert a + b == [CR] + b;
      assert (a + b)[1..] == b;
      assert Lines(a) == [[]] + Lines(a[1..]);
      assert a[1..] == [];
    } else {
      assert (a + b)[1..] == a[1..] + b;
      LinesAppendSeam(a[1..], b);
      LinesNonEmpty(a[1..]);
      PrefixedAppend([a[0]], Lines(a[1..]), Lines(b)[1..]);
    }
  }

  /** At the end of complete lines, appending keeps the earlier split exactly when no CRLF is torn. */
  lemma {:induction false} ExtensionExact(a: Bytes, b: Bytes)
    requires EndsOnBoundary(a)
    ensures Lines(a + b) == Lines(a) + Lines(b) <==> !SeamSplitsCrLf(a, b)
  {
    if SeamSplitsCrLf(a, b) {
      LinesAppendSeam(a, b);
      assert |Lines(a + b)| == |Lines(a)| + |Lines(b)| - 1;
    } else {
      LinesAppend(a, b);
    }
  }

  lemma {:induction false} LinesSplit(s: Bytes, i: nat)
    requires Boundary(s, i)
    ensures Lines(s) == Lines(s[..i]) + Lines(s[i..])
  {
    LinesAppend(s[..i], s[i..]);
    assert s == s[..i] + s[i..];
  }

  /** A boundary of a suffix, other than the cut itself, is a boundary of the whole. */
  lemma {:induction false} BoundaryOfSuffix(s: Bytes, p: nat, q: nat)
    requires p <= |s| && Boundary(s[p..], q) && 0 < q
    ensures Boundary(s, p + q)
    ensures Lines(s) == Lines(s[..p + q]) + Lines(s[p..][q..])
  {
    var b := s[p..];
    assert s[..p + q][p + q - 1] == b[..q][q - 1];
    assert s[p + q..] == b[q..];
    LinesSplit(s, p + q);
  }

  /** The line up to the first terminator, and what follows it. */
  lemma {:induction false} FirstLine(s: Bytes, i: nat, next: nat)
    requires i < |s| && IsTerm(s[i]) && forall k :: 0 <= k < i ==> !IsTerm(s[k])
    requires next == if s[i] == CR && i + 1 < |s| && s[i + 1] == LF then i + 2 else i + 1
    ensures Lines(s) == [s[..i]] + Lines(s[next..])
    ensures Boundary(s, next) && |Lines(s[..next])| == 1
  {
    if i == 0 {
      if next == 2 {
        assert s[1..][1..] == s[2..];
        assert s[1..][0] == LF;
        assert s[..2][1..] == [LF];
        assert Lines([LF]) == [[]] + Lines([LF][1..]);
      } else {
        assert s[..1][1..] == [];
      }
    } else {
      FirstLine(s[1..], i - 1, next - 1);
      assert s[1..][next - 1..] == s[next..];
      assert [s[0]] + s[1..][..i - 1] == s[..i];
      assert s[..next][1..] == s[1..][..next - 1];
      assert s[..next][next - 1] == s[next - 1];
    }
  }

  /** A text without terminators is one line. */
  lemma {:induction false} OneLine(s: Bytes)
    requires s != [] && forall k :: 0 <= k < |s| ==> !IsTerm(s[k])
    ensures Lines(s) == [s]
  {
    assert s == [s[0]] + s[1..];
    if |s| > 1 {
      OneLine(s[1..]);
    } else {
      assert s[1..] == [] && s == [s[0]];
      assert !IsTerm(s[0]);
      assert Lines(s) == Prefixed([s[0]], []);
    }
  }

  predicate TermFree(line: Bytes) {
    forall k :: 0 <= k < |line| ==> !IsTerm(line[k])
  }

  lemma {:induction false} LinesAreTermFree(s: Bytes)
    ensures forall k :: 0 <= k < |Lines(s)| ==> TermFree(Lines(s)[k])
  {
    if s != [] {
      LinesAreTermFree(s[1..]);
    }
  }

  // ---------------------------------------------------------------------------
  // _universal_newline_segments
  // ---------------------------------------------------------------------------

  /** text.replace("\r\n", "\n") */
  function ReplaceCrLf(s: Bytes): Bytes {
    if |s| < 2 then s
    else if s[0] == CR && s[1] == LF then [LF] + ReplaceCrLf(s[2..])
    else [s[0]] + ReplaceCrLf(s[1..])
  }

  /** text.replace("\r", "\n") */
  function ReplaceCr(s: Bytes): Bytes {
    if s == [] then [] else [if s[0] == CR then LF else s[0]] + ReplaceCr(s[1..])
  }

  /** text.split("\n"): always at least one piece. */
  function SplitLf(s: Bytes): (pieces: seq<Bytes>)
    ensures pieces != []
  {
    if s == [] then [[]]
    else
      var rest := SplitLf(s[1..]);
      if s[0] == LF then [[]] + rest else Prefixed([s[0]], rest)
  }

  /** The whole-buffer splitter. */
  function UniversalNewlineSegments(buf: Bytes): (seq<Bytes>, bool) {
    if buf == [] then ([], true)
    else
      var text := ReplaceCr(ReplaceCrLf(buf));
      var endsWithNewline := text != [] && text[|text| - 1] == LF;
      var segments := SplitLf(text);
      (if endsWithNewline then segments[..|segments| - 1] else segments, endsWithNewline)
  }

  function Translated(s: Bytes): Bytes {
    ReplaceCr(ReplaceCrLf(s))
  }

  /** The translated text splits on LF into the lines, and one empty piece more after a complete line. */
  predicate Splits(s: Bytes) {
    var text := Translated(s);
    && (s != [] ==> text != [] && (text[|text| - 1] == LF <==> EndsOnBoundary(s)))
    && SplitLf(text) == Lines(s) + LastPiece(s)
  }

  function LastPiece(s: Bytes): seq<Bytes> {
    if EndsOnBoundary(s) then [[]] else []
  }

  lemma {:induction false} OneByteSplits(s: Bytes)
    requires |s| == 1
    ensures Splits(s)
  {
    assert s[1..] == [];
    assert ReplaceCr(s)[1..] == [];
    assert SplitLf([]) == [[]];
    var text := ReplaceCr(s);
    assert text == [if s[0] == CR then LF else s[0]];
    assert text[1..] == [];
    assert SplitLf(text) == if text[0] == LF then [[]] + [[]] else [[s[0]] + []] + [];
    assert [s[0]] + [] == [s[0]];
  }

  lemma {:induction false} CrLfSplits(s: Bytes)
    requires |s| >= 2 && s[0] == CR && s[1] == LF && Splits(s[2..])
    ensures Splits(s)
  {
    var rest := ReplaceCrLf(s[2..]);
    assert s[1..][0] == LF && s[1..][1..] == s[2..];
    assert ([LF] + rest)[1..] == rest;
    assert Translated(s) == [LF] + Translated(s[2..]);
    assert Lines(s) == [[]] + Lines(s[2..]);
    LastOfSuffix(s, 2);
    LeadingLf(Translated(s[2..]));
    Assoc([[]], Lines(s[2..]), LastPiece(s[2..]));
  }

  lemma {:induction false} LeadingLf(text: Bytes)
    ensures SplitLf([LF] + text) == [[]] + SplitLf(text)
    ensures ([LF] + text)[|text|] == if text == [] then LF else text[|text| - 1]
  {
    assert ([LF] + text)[1..] == text;
  }

  lemma {:induction false} LastOfSuffix(s: Bytes, k: nat)
    requires k <= |s|
    ensures s[k..] != [] ==> s[k..][|s[k..]| - 1] == s[|s| - 1]
  {
  }

  lemma {:induction false} NextByteSplits(s: Bytes)
    requires |s| >= 2 && !(s[0] == CR && s[1] == LF) && Splits(s[1..])
    ensures Splits(s)
  {
    var first := if s[0] == CR then LF else s[0];
    assert ([s[0]] + ReplaceCrLf(s[1..]))[1..] == ReplaceCrLf(s[1..]);
    assert Translated(s) == [first] + Translated(s[1..]);
    assert ([first] + Translated(s[1..]))[1..] == Translated(s[1..]);
    LastOfSuffix(s, 1);
    LastOfSuffix(Translated(s), 1);
    LinesNonEmpty(s[1..]);
    if IsTerm(s[0]) {
      assert Lines(s) == [[]] + Lines(s[1..]);
    } else {
      PrefixedAppend([s[0]], Lines(s[1..]), LastPiece(s));
    }
  }

  lemma {:induction false} TranslationSplits(s: Bytes)
    ensures Splits(s)
  {
    if |s| >= 2 && s[0] == CR && s[1] == LF {
      TranslationSplits(s[2..]);
      CrLfSplits(s);
    } else if |s| >= 2 {
      TranslationSplits(s[1..]);
      NextByteSplits(s);
    } else if |s| == 1 {
      OneByteSplits(s);
    }
  }

  /** The translate-and-split form equals the reference, with the right boundary flag. */
  lemma {:induction false} SegmentsAreLines(buf: Bytes)
    ensures UniversalNewlineSegments(buf) == (Lines(buf), EndsOnBoundary(buf))
  {
    TranslationSplits(buf);
    if buf != [] {
      var text := ReplaceCr(ReplaceCrLf(buf));
      assert EndsOnBoundary(buf) ==> SplitLf(text)[..|SplitLf(text)| - 1] == Lines(buf);
      assert Lines(buf) + [] == Lines(buf);
    }
  }

  // ---------------------------------------------------------------------------
  // _raw_line_spans
  // ---------------------------------------------------------------------------

  /** bytes.find of one byte from pos: the first index, or -1. */
  function Find(buf: Bytes, b: byte, pos: nat): (i: int)
    requires pos <= |buf|
    ensures i == -1 ==> forall k :: pos <= k < |buf| ==> buf[k] != b
    ensures i != -1 ==> pos <= i < |buf| && buf[i] == b && forall k :: pos <= k < i ==> buf[k] != b
    decreases |buf| - pos
  {
    if pos == |buf| then -1 else if buf[pos] == b then pos else Find(buf, b, pos + 1)
  }

  /** spans cut buf into its lines: the k-th span reads line k and starts after exactly k lines. */
  ghost predicate SpansRead(buf: Bytes, spans: seq<(nat, nat)>, lines: seq<Bytes>) {
    && |spans| == |lines|
    && forall k :: 0 <= k < |spans| ==> SpanReads(buf, spans[k], lines, k)
  }

  ghost predicate SpanReads(buf: Bytes, span: (nat, nat), lines: seq<Bytes>, k: nat)
    requires k < |lines|
  {
    && span.0 <= span.1 <= |buf|
    && buf[span.0..span.1] == lines[k]
    && Boundary(buf, span.0)
    && |Lines(buf[..span.0])| == k
  }

  lemma {:induction false} SpansReadSnoc(buf: Bytes, spans: seq<(nat, nat)>, lines: seq<Bytes>, start: nat, stop: nat)
    requires SpansRead(buf, spans, lines)
    requires start <= stop <= |buf| && Boundary(buf, start) && |Lines(buf[..start])| == |spans|
    ensures SpansRead(buf, spans + [(start, stop)], lines + [buf[start..stop]])
  {
    var grown := lines + [buf[start..stop]];
    forall k | 0 <= k < |spans| + 1
      ensures SpanReads(buf, (spans + [(start, stop)])[k], grown, k)
    {
      if k < |spans| {
        assert SpanReads(buf, spans[k], lines, k);
      }
    }
  }

  lemma {:induction false} AdvanceSpan(buf: Bytes, start: nat, i: nat, next: nat)
    requires start <= i < |buf| && Boundary(buf, start) && IsTerm(buf[i])
    requires forall k :: start <= k < i ==> !IsTerm(buf[k])
    requires next == if buf[i] == CR && i + 1 < |buf| && buf[i + 1] == LF then i + 2 else i + 1
    ensures Lines(buf[start..]) == [buf[start..i]] + Lines(buf[next..])
    ensures Boundary(buf, next) && |Lines(buf[..next])| == |Lines(buf[..start])| + 1
  {
    SpanSlices(buf, start, i, next);
    FirstLine(buf[start..], i - start, next - start);
    BoundaryOfSuffix(buf, start, next - start);
    OneLineLess(buf, start, next, buf[start..i]);
  }

  lemma {:induction false} SpanSlices(buf: Bytes, start: nat, i: nat, next: nat)
    requires start <= i < next <= |buf|
    ensures buf[start..][..i - start] == buf[start..i] && buf[start..][next - start..] == buf[next..]
    ensures forall k :: 0 <= k < |buf| - start ==> buf[start..][k] == buf[start + k]
  {
  }

  lemma {:induction false} OneLineLess(buf: Bytes, start: nat, next: nat, line: Bytes)
    requires Boundary(buf, start) && Boundary(buf, next) && Lines(buf[start..]) == [line] + Lines(buf[next..])
    ensures |Lines(buf[..next])| == |Lines(buf[..start])| + 1
  {
    LinesSplit(buf, start);
    LinesSplit(buf, next);
  }

  /** The splitter's loop invariant: the spans read the lines of buf[..start]. */
  ghost predicate SplitUpTo(buf: Bytes, spans: seq<(nat, nat)>, done: seq<Bytes>, start: nat) {
    && Boundary(buf, start)
    && |Lines(buf[..start])| == |spans|
    && Lines(buf) == done + Lines(buf[start..])
    && SpansRead(buf, spans, done)
  }

  lemma {:induction false} SplitStep(buf: Bytes, spans: seq<(nat, nat)>, done: seq<Bytes>, start: nat, i: nat, next: nat)
    requires SplitUpTo(buf, spans, done, start)
    requires start <= i < |buf| && IsTerm(buf[i]) && forall k :: start <= k < i ==> !IsTerm(buf[k])
    requires next == if buf[i] == CR && i + 1 < |buf| && buf[i + 1] == LF then i + 2 else i + 1
    ensures SplitUpTo(buf, spans + [(start, i)], done + [buf[start..i]], next)
  {
    AdvanceSpan(buf, start, i, next);
    SpansReadSnoc(buf, spans, done, start, i);
    assert done + ([buf[start..i]] + Lines(buf[next..])) == done + [buf[start..i]] + Lines(buf[next..]);
  }

  lemma {:induction false} SplitEnd(buf: Bytes, spans: seq<(nat, nat)>, done: seq<Bytes>, start: nat)
    requires SplitUpTo(buf, spans, done, start)
    requires forall k :: start <= k < |buf| ==> !IsTerm(buf[k])
    ensures start == |buf| ==> SpansRead(buf, spans, Lines(buf)) && EndsOnBoundary(buf)
    ensures start < |buf| ==> SpansRead(buf, spans + [(start, |buf|)], Lines(buf)) && !EndsOnBoundary(buf)
  {
    if start == |buf| {
      assert buf[..start] == buf;
      assert buf[start..] == [];
    } else {
      OneLine(buf[start..]);
      assert buf[start..|buf|] == buf[start..];
      SpansReadSnoc(buf, spans, done, start, |buf|);
    }
  }

  /** The offset-keeping splitter used by the backward walk. */
  method RawLineSpans(buf: Bytes) returns (spans: seq<(nat, nat)>, ends: bool)
    ensures SpansRead(buf, spans, Lines(buf))
    ensures ends == EndsOnBoundary(buf)
  {
    spans := [];
    var start, pos, n := 0, 0, |buf|;
    ghost var done: seq<Bytes> := [];
    assert buf[0..] == buf;
    while true
      invariant 0 <= start == pos <= n
      invariant SplitUpTo(buf, spans, done, start)
      decreases n - pos
    {
      var i := Find(buf, LF, pos);
      var j := Find(buf, CR, pos);
      if i == -1 && j == -1 {
        break;
      }
      var stop;
      if j != -1 && (i == -1 || j < i) {
        stop := j;
        pos := if j + 1 < n && buf[j + 1] == 10 then j + 2 else j + 1;
      } else {
        stop := i;
        pos := i + 1;
      }
      SplitStep(buf, spans, done, start, stop, pos);
      done := done + [buf[start..stop]];
      spans := spans + [(start, stop)];
      start := pos;
    }
    SplitEnd(buf, spans, done, start);
    ends := start == n;
    if !ends {
      spans := spans + [(start, n)];
    }
  }

  // ---------------------------------------------------------------------------
  // Writing lines back, and the line counter
  // ---------------------------------------------------------------------------

  /** "".join(raw + "\n" for raw in lines) */
  function Unlines(lines: seq<Bytes>): Bytes {
    if lines == [] then [] else lines[0] + [LF] + Unlines(lines[1..])
  }

  lemma {:induction false} UnlinesEndsOnBoundary(lines: seq<Bytes>)
    ensures EndsOnBoundary(Unlines(lines))
    ensures lines != [] ==> Unlines(lines) != [] && Unlines(lines)[|Unlines(lines)| - 1] == LF
  {
    if lines != [] {
      UnlinesEndsOnBoundary(lines[1..]);
    }
  }

  /** Writing terminator-free lines and reading them back is the identity. */
  lemma {:induction false} UnlinesRoundTrip(lines: seq<Bytes>)
    requires forall k :: 0 <= k < |lines| ==> TermFree(lines[k])
    ensures Lines(Unlines(lines)) == lines
  {
    if lines != [] {
      var s := Unlines(lines);
      var n := |lines[0]|;
      assert s[n] == LF;
      assert TermFree(lines[0]);
      assert forall k :: 0 <= k < n ==> s[k] == lines[0][k];
      FirstLine(s, n, n + 1);
      assert s[..n] == lines[0];
      assert s[n + 1..] == Unlines(lines[1..]);
      UnlinesRoundTrip(lines[1..]);
    }
  }

  function LfCount(s: Bytes): nat {
    if s == [] then 0 else (if s[0] == LF then 1 else 0) + LfCount(s[1..])
  }

  /** count_ndjson_lines: LF bytes, plus one for a last byte that is not LF. */
  function CountNdjsonLines(s: Bytes): nat {
    LfCount(s) + (if s != [] && s[|s| - 1] != LF then 1 else 0)
  }

  /** CR bytes not directly followed by LF. */
  function LoneCrCount(s: Bytes): nat {
    if s == [] then 0
    else (if s[0] == CR && !(|s| > 1 && s[1] == LF) then 1 else 0) + LoneCrCount(s[1..])
  }

  lemma {:induction false} LineCountFormula(s: Bytes)
    ensures |Lines(s)| == LfCount(s) + LoneCrCount(s) + (if EndsOnBoundary(s) then 0 else 1)
    ensures s != [] && s[|s| - 1] == CR ==> LoneCrCount(s) >= 1
  {
    if |s| == 1 {
      assert s[1..] == [];
    } else if |s| > 1 {
      LineCountFormula(s[1..]);
      LinesNonEmpty(s[1..]);
    }
  }

  /**
   * The LF-only counter agrees with the universal-newline line count exactly when no lone CR
   * occurs, or the only one is the very last byte.
   */
  lemma {:induction false} CountAgreesIff(s: Bytes)
    ensures CountNdjsonLines(s) == |Lines(s)| <==>
            LoneCrCount(s) == 0 || (LoneCrCount(s) == 1 && s[|s| - 1] == CR)
  {
    LineCountFormula(s);
  }

  /** How far the LF-only counter falls short: the lone CRs, a last one aside. */
  function MissedLines(s: Bytes): nat {
    var lone := LoneCrCount(s);
    if lone > 0 && s[|s| - 1] == CR then lone - 1 else lone
  }

  lemma {:induction false} MissedLinesAre(s: Bytes)
    ensures |Lines(s)| == CountNdjsonLines(s) + MissedLines(s)
  {
    LineCountFormula(s);
  }

  lemma {:induction false} LoneCrAppend(a: Bytes, b: Bytes)
    requires !SeamSplitsCrLf(a, b)
    ensures LoneCrCount(a + b) == LoneCrCount(a) + LoneCrCount(b)
  {
    if a == [] {
      assert a + b == b;
    } else {
      LoneCrAppend(a[1..], b);
      assert (a + b)[0] == a[0] && (a + b)[1..] == a[1..] + b;
      if |a| == 1 {
        assert a[1..] == [] && a[1..] + b == b;
      }
    }
  }

  /** Appends never repair the counter. */
  lemma {:induction false} MissedLinesGrow(a: Bytes, b: Bytes)
    requires !SeamSplitsCrLf(a, b)
    ensures MissedLines(a) <= MissedLines(a + b)
  {
    LoneCrAppend(a, b);
    LineCountFormula(b);
    if b == [] {
      assert a + b == a;
    } else {
      assert (a + b)[|a + b| - 1] == b[|b| - 1];
    }
  }

  /** Where the unterminated last line starts. */
  function TornFrom(s: Bytes): (i: nat)
    ensures i <= |s| && (i > 0 ==> IsTerm(s[i - 1])) && TermFree(s[i..])
  {
    if EndsOnBoundary(s) then |s|
    else
      var i := TornFrom(s[..|s| - 1]);
      assert forall k :: 0 <= k < |s| - i - 1 ==> s[i..][k] == s[..|s| - 1][i..][k];
      i
  }

  /** What is written after a torn line becomes part of it. */
  lemma {:induction false} GluedLine(a: Bytes, t: Bytes)
    requires !EndsOnBoundary(a) && TermFree(t)
    ensures Lines(a) != []
    ensures Lines(a + t + [LF]) == Lines(a)[..|Lines(a)| - 1] + [Lines(a)[|Lines(a)| - 1] + t]
  {
    var i := TornFrom(a);
    var torn := a[i..];
    TornBoundary(a, i, []);
    TornBoundary(a, i, t + [LF]);
    assert a + [] == a && torn + [] == torn;
    assert a + (t + [LF]) == a + t + [LF] && torn + (t + [LF]) == torn + t + [LF];
    LinesSplit(a, i);
    LinesSplit(a + t + [LF], i);
    OneLine(torn);
    WrittenLine(torn + t);
  }

  lemma {:induction false} TornBoundary(a: Bytes, i: nat, more: Bytes)
    requires i < |a| && (i > 0 ==> IsTerm(a[i - 1])) && !IsTerm(a[i])
    ensures Boundary(a + more, i) && (a + more)[..i] == a[..i] && (a + more)[i..] == a[i..] + more
  {
    assert (a + more)[i..][0] == a[i];
  }

  lemma {:induction false} WrittenLine(s: Bytes)
    requires TermFree(s)
    ensures Lines(s + [LF]) == [s]
  {
    FirstLine(s + [LF], |s|, |s| + 1);
    assert (s + [LF])[..|s|] == s && (s + [LF])[|s| + 1..] == [];
    assert Lines([]) == [] && [s] + [] == [s];
  }

  /** What ends a line, and what does not: with LinesAppend this says what the lines of any bytes are. */
  lemma {:induction false} LineOf(line: Bytes)
    requires LF !in line && CR !in line
    ensures Lines(line + [LF]) == [line] && Lines(line + [CR]) == [line] && Lines(line + [CR, LF]) == [line]
    ensures Lines(line) == if line == [] then [] else [line]
  {
    var n := |line|;
    FirstLine(line + [LF], n, n + 1);
    FirstLine(line + [CR], n, n + 1);
    FirstLine(line + [CR, LF], n, n + 2);
    assert (line + [LF])[..n] == line && (line + [LF])[n + 1..] == [];
    assert (line + [CR])[..n] == line && (line + [CR])[n + 1..] == [];
    assert (line + [CR, LF])[..n] == line && (line + [CR, LF])[n + 2..] == [];
    assert Lines([]) == [] && [line] + [] == [line];
    if line != [] {
      OneLine(line);
    }
  }
}
