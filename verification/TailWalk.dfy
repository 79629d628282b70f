/**
 * The from-the-end reader: it walks fixed-size chunks backward until a terminator count bounds the
 * request, then cuts the last `count` lines out of the bytes it holds.
 */
module TailWalk {
  import opened Prelude
  import opened PhysicalLines

  datatype Walked = Walked(texts: seq<Bytes>, byteStart: nat, ends: bool)

  /** chunk.count(b"\n") + chunk.count(b"\r") */
  function TerminatorBytes(chunk: Bytes): nat {
    if chunk == [] then 0 else (if IsTerm(chunk[0]) then 1 else 0) + TerminatorBytes(chunk[1..])
  }

  lemma {:induction false} TerminatorBytesAppend(a: Bytes, b: Bytes)
    ensures TerminatorBytes(a + b) == TerminatorBytes(a) + TerminatorBytes(b)
  {
    if a == [] {
      assert a + b == b;
    } else {
      TerminatorBytesAppend(a[1..], b);
      assert (a + b)[0] == a[0] && (a + b)[1..] == a[1..] + b;
    }
  }

  /**
   * What a walk over content must answer: its last `count` lines, the offset where they start,
   * exactly that many lines before it, and whether the content ends on a line boundary.
   */
  ghost predicate IsTail(content: Bytes, count: nat, w: Walked) {
    var lines := Lines(content);
    && count <= |lines|
    && w.texts == lines[|lines| - count..]
    && Boundary(content, w.byteStart)
    && |Lines(content[..w.byteStart])| == |lines| - count
    && w.ends == EndsOnBoundary(content)
  }

  /** b"".join(reversed(parts)) */
  function JoinReversed(parts: seq<Bytes>): Bytes {
    if parts == [] then [] else JoinReversed(parts[1..]) + parts[0]
  }

  lemma {:induction false} JoinReversedSnoc(parts: seq<Bytes>, chunk: Bytes)
    ensures JoinReversed(parts + [chunk]) == chunk + JoinReversed(parts)
  {
    if parts == [] {
      assert parts + [chunk] == [chunk];
    } else {
      JoinReversedSnoc(parts[1..], chunk);
      assert (parts + [chunk])[1..] == parts[1..] + [chunk];
    }
  }

  lemma {:induction false} ChunkStep(content: Bytes, parts: seq<Bytes>, lo: nat, hi: nat, size: nat)
    requires lo <= hi <= size <= |content| && JoinReversed(parts) == content[hi..size]
    ensures JoinReversed(parts + [content[lo..hi]]) == content[lo..size]
    ensures TerminatorBytes(content[lo..size]) == TerminatorBytes(content[hi..size]) + TerminatorBytes(content[lo..hi])
  {
    JoinReversedSnoc(parts, content[lo..hi]);
    TerminatorBytesAppend(content[lo..hi], content[hi..size]);
    assert content[lo..hi] + content[hi..size] == content[lo..size];
  }

  /** [buf[s:e] for s, e in spans[len(spans) - count:]] */
  method Texts(buf: Bytes, spans: seq<(nat, nat)>, count: nat) returns (texts: seq<Bytes>)
    requires SpansRead(buf, spans, Lines(buf)) && count <= |spans|
    ensures texts == Lines(buf)[|spans| - count..]
  {
    texts := [];
    var first := |spans| - count;
    for k := first to |spans|
      invariant texts == Lines(buf)[first..k]
    {
      assert SpanReads(buf, spans[k], Lines(buf), k);
      texts := texts + [buf[spans[k].0..spans[k].1]];
    }
    assert Lines(buf)[first..|spans|] == Lines(buf)[first..];
  }

  lemma {:induction false} TailFrom(content: Bytes, start: nat)
    requires Boundary(content, start)
    ensures var texts := Lines(content[start..]);
            IsTail(content, |texts|, Walked(texts, start, EndsOnBoundary(content)))
  {
    LinesSplit(content, start);
  }

  /** A boundary of the suffix from pos, not its possibly cut head, is a boundary of the whole. */
  lemma {:induction false} SuffixBoundary(content: Bytes, pos: nat, q: nat)
    requires pos < |content| && Boundary(content[pos..], q) && (pos > 0 ==> q > 0)
    ensures Boundary(content, pos + q) && content[pos + q..] == content[pos..][q..]
  {
    if pos == 0 {
      assert content[0..] == content;
    } else {
      BoundaryOfSuffix(content, pos, q);
    }
  }

  /** Past its possibly cut head line, the suffix from pos ends the content's own line list. */
  lemma {:induction false} SuffixAnswers(content: Bytes, pos: nat, q: nat)
    requires pos < |content| && Boundary(content[pos..], q) && (pos > 0 ==> q > 0)
    ensures var texts := Lines(content[pos..][q..]);
            && IsTail(content, |texts|, Walked(texts, pos + q, EndsOnBoundary(content[pos..])))
            && Lines(content[pos..]) == Lines(content[pos..][..q]) + texts
  {
    LinesSplit(content[pos..], q);
    SuffixBoundary(content, pos, q);
    SuffixEnds(content, pos);
    TailFrom(content, pos + q);
  }

  lemma {:induction false} SuffixEnds(content: Bytes, pos: nat)
    requires pos < |content|
    ensures EndsOnBoundary(content[pos..]) == EndsOnBoundary(content)
  {
    assert content[pos..][|content| - pos - 1] == content[|content| - 1];
  }

  /** The span the walk stops at starts a line of the buffer, and is not its cut head. */
  lemma {:induction false} StopSpan(buf: Bytes, spans: seq<(nat, nat)>, k: nat)
    requires SpansRead(buf, spans, Lines(buf)) && k < |spans|
    ensures Boundary(buf, spans[k].0) && |Lines(buf[..spans[k].0])| == k
    ensures k > 0 ==> spans[k].0 > 0
    ensures Lines(buf)[k..] == Lines(buf[spans[k].0..])
    ensures buf != []
  {
    assert SpanReads(buf, spans[k], Lines(buf), k);
    assert buf[..0] == [];
    LinesSplit(buf, spans[k].0);
  }

  lemma {:induction false} StopAnswers(content: Bytes, pos: nat, spans: seq<(nat, nat)>, count: nat)
    requires pos <= |content| && SpansRead(content[pos..], spans, Lines(content[pos..]))
    requires 0 < count <= |spans| - (if pos > 0 then 1 else 0)
    ensures var k := |spans| - count;
            IsTail(content, count, Walked(Lines(content[pos..])[k..], pos + spans[k].0, EndsOnBoundary(content[pos..])))
  {
    var k := |spans| - count;
    StopSpan(content[pos..], spans, k);
    SuffixAnswers(content, pos, spans[k].0);
  }

  /** The stop rule has not fired on the bytes from pos on. */
  predicate KeepsWalking(content: Bytes, pos: nat, count: int)
    requires pos <= |content|
  {
    TerminatorBytes(content[pos..]) < count + 2 || |Lines(content[pos..])| - 1 < count
  }

  /**
   * _walk_tail_line_texts over the bytes [0, size) of a file.  Bytes past size, which a racing
   * append may add, are never read.  None means too few lines, or a walked span that went over
   * the budget before the stop rule fired.
   */
  method WalkTailLineTexts(content: Bytes, size: nat, count: int, chunkBytes: nat, budget: nat)
    returns (walked: Option<Walked>, ghost span: nat)
    requires size <= |content| && 0 < chunkBytes
    ensures count <= 0 ==> walked == Some(Walked([], size, true))
    ensures 0 < count && walked.Some? ==> IsTail(content[..size], count, walked.value)
    ensures 0 < count && walked.None? ==>
              count > |Lines(content[..size])|
              || (budget < span < size && span <= budget + chunkBytes && KeepsWalking(content[..size], size - span, count))
    ensures count > |Lines(content[..size])| ==> walked.None?
  {
    if count <= 0 {
      return Some(Walked([], size, true)), 0;
    }
    var parts: seq<Bytes> := [];
    var accumulated, bound, pos := 0, 0, size;
    var buf: Bytes := [];
    var spans: seq<(nat, nat)> := [];
    var ends := true;
    assert content[size..size] == [];
    while true
      invariant 0 <= pos <= size && accumulated == size - pos
      invariant JoinReversed(parts) == content[pos..size] && bound == TerminatorBytes(content[pos..size])
      invariant accumulated <= budget + chunkBytes
      decreases pos
    {
      if bound >= count + 2 || pos == 0 {
        buf := JoinReversed(parts);
        spans, ends := RawLineSpans(buf);
        assert buf == content[..size][pos..];
        var complete := |spans| - (if pos > 0 then 1 else 0);
        if complete >= count {
          break;
        }
        if pos == 0 {
          assert buf == content[..size];
          return None, size;
        }
      }
      if accumulated > budget {
        assert content[..size][pos..] == content[pos..size];
        return None, accumulated;
      }
      var step := if chunkBytes < pos then chunkBytes else pos;
      pos := pos - step;
      var chunk := content[pos..pos + step];
      ChunkStep(content, parts, pos, pos + step, size);
      bound := bound + TerminatorBytes(chunk);
      accumulated := accumulated + step;
      parts := parts + [chunk];
    }
    var texts := Texts(buf, spans, count);
    StopAnswers(content[..size], pos, spans, count);
    return Some(Walked(texts, pos + spans[|spans| - count].0, ends)), accumulated;
  }
}
