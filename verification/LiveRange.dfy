/**
 * The live-file range memo.  A memo entry holds the parsed physical lines of a covered suffix of
 * the file; it is built by a walk from the end, extended backward, extended forward after
 * appends, or rebuilt in full.  Every served list must equal the same suffix of one full
 * split-and-parse of some content the file held during the call.
 */
module LiveRange {
  import opened Prelude
  import opened PhysicalLines
  import opened TailWalk

  datatype Stat = Stat(mtime: int, size: nat, inode: int)

  /** One version of the file: what a stat signature (mtime, size) stands for. */
  datatype Version = Version(inode: int, content: Bytes)

  /** At most one append landing at a point where a reader can be overtaken. */
  datatype Landing = Quiet | Lands(bytes: Bytes, at: int)

  /** The appends that overtake one read: after its stat, around the line count, before it reads the file. */
  datatype Races = Races(afterStat: Landing, beforeCount: Landing, beforeRestat: Landing,
                         beforeWalk: Landing, beforeRead: Landing)

  const NO_RACES := Races(Quiet, Quiet, Quiet, Quiet, Quiet)

  type Signature = (int, nat)

  /** The fields of the live file. */
  datatype FileState = FileState(content: Bytes, mtime: int, inode: int, versions: map<Signature, Version>)

  /** The append-only live file, with the history of every version it has had. */
  class LiveFile {
    var content: Bytes
    var mtime: int
    var inode: int
    var versions: map<Signature, Version>

    ghost predicate Valid()
      reads this
    {
      && (mtime, |content|) in versions
      && versions[(mtime, |content|)] == Version(inode, content)
      && (forall sig :: sig in versions ==> |versions[sig].content| == sig.1)
      && (forall sig :: sig in versions && versions[sig].inode == inode ==> versions[sig].content <= content)
    }

    constructor (bytes: Bytes, at: int, ino: int)
      ensures Valid() && content == bytes && mtime == at && inode == ino
      ensures versions == map[(at, |bytes|) := Version(ino, bytes)]
    {
      content, mtime, inode := bytes, at, ino;
      versions := map[(at, |bytes|) := Version(ino, bytes)];
    }

    function State(): FileState
      reads this
    {
      FileState(content, mtime, inode, versions)
    }

    function StatNow(): (st: Stat)
      reads this
    {
      Stat(mtime, |content|, inode)
    }

    /** An append may land if its stat is new and it tears no CRLF. */
    predicate MayAppend(bytes: Bytes, at: int)
      reads this
    {
      && bytes != []
      && (at, |content| + |bytes|) !in versions
      && !SeamSplitsCrLf(content, bytes)
    }

    method Append(bytes: Bytes, at: int)
      requires Valid() && MayAppend(bytes, at)
      modifies this
      ensures Valid()
      ensures content == old(content) + bytes && mtime == at && inode == old(inode)
      ensures versions == old(versions)[(at, |content|) := Version(inode, content)]
    {
      content := content + bytes;
      mtime := at;
      versions := versions[(at, |content|) := Version(inode, content)];
    }

    /** A rewrite publishes a new inode, one no earlier version had. */
    predicate MayRewrite(bytes: Bytes, at: int, ino: int)
      reads this
    {
      && (at, |bytes|) !in versions
      && (forall sig :: sig in versions ==> versions[sig].inode != ino)
    }

    method Rewrite(bytes: Bytes, at: int, ino: int)
      requires Valid() && MayRewrite(bytes, at, ino)
      modifies this
      ensures Valid()
      ensures content == bytes && mtime == at && inode == ino
      ensures versions == old(versions)[(at, |bytes|) := Version(ino, bytes)]
    {
      content, mtime, inode := bytes, at, ino;
      versions := versions[(at, |bytes|) := Version(ino, bytes)];
    }
  }

  datatype Entry<+E> = Entry(mtime: int, size: nat, inode: int, lines: seq<Option<E>>,
                             coveredEnd: nat, ends: bool, first: nat, byteStart: nat)

  function ParseLines<E>(lines: seq<Bytes>, parse: Bytes -> Option<E>): seq<Option<E>> {
    seq(|lines|, i requires 0 <= i < |lines| => parse(lines[i]))
  }

  lemma {:induction false} ParseLinesAppend<E>(a: seq<Bytes>, b: seq<Bytes>, parse: Bytes -> Option<E>)
    ensures ParseLines(a + b, parse) == ParseLines(a, parse) + ParseLines(b, parse)
  {
  }

  function From<T>(s: seq<T>, i: nat): seq<T> {
    if i <= |s| then s[i..] else []
  }

  /**
   * The list from line `start + missed` on that one full split-and-parse of the snapshot gives,
   * labelled as starting at `start`: right when nothing was missed.
   */
  ghost predicate Serves<E>(lines: seq<Option<E>>, start: nat, relStart: nat, snapshot: Bytes,
                            parse: Bytes -> Option<E>, missed: nat)
  {
    start <= relStart && lines == ParseLines(From(Lines(snapshot), start + missed), parse)
  }

  /**
   * An entry denotes exactly the parsed lines from its byte start on of its covered bytes.  The
   * index it gives the first of them lags by the lines that the counter missed when it was built.
   */
  ghost predicate Denotes<E>(e: Entry<E>, covered: Bytes, parse: Bytes -> Option<E>, missed: nat) {
    && |covered| == e.coveredEnd
    && e.ends == EndsOnBoundary(covered)
    && Boundary(covered, e.byteStart)
    && |Lines(covered[..e.byteStart])| == e.first + missed
    && e.lines == ParseLines(Lines(covered[e.byteStart..]), parse)
  }

  lemma {:induction false} DenotesServes<E>(e: Entry<E>, covered: Bytes, parse: Bytes -> Option<E>, missed: nat, relStart: nat)
    requires Denotes(e, covered, parse, missed) && e.first <= relStart
    ensures Serves(e.lines, e.first, relStart, covered, parse, missed)
  {
    LinesSplit(covered, e.byteStart);
  }

  /** Complete lines from b on grow by exactly the lines of an appended tail. */
  lemma {:induction false} SuffixGrows(covered: Bytes, tail: Bytes, b: nat)
    requires Boundary(covered, b) && EndsOnBoundary(covered) && !SeamSplitsCrLf(covered, tail)
    ensures (covered + tail)[..b] == covered[..b] && Boundary(covered + tail, b)
    ensures Lines((covered + tail)[b..]) == Lines(covered[b..]) + Lines(tail)
    ensures EndsOnBoundary(covered + tail) == EndsOnBoundary(tail)
  {
    var suffix := covered[b..];
    GluedSlices(covered, tail, b);
    if b < |covered| {
      assert suffix[|suffix| - 1] == covered[|covered| - 1];
    }
    LinesAppend(suffix, tail);
  }

  lemma {:induction false} GluedSlices(covered: Bytes, tail: Bytes, b: nat)
    requires Boundary(covered, b) && EndsOnBoundary(covered) && !SeamSplitsCrLf(covered, tail)
    ensures (covered + tail)[..b] == covered[..b] && (covered + tail)[b..] == covered[b..] + tail
    ensures Boundary(covered + tail, b) && EndsOnBoundary(covered + tail) == EndsOnBoundary(tail)
  {
    assert (covered + tail)[b..] == covered[b..] + tail;
    if b == |covered| {
      assert covered[..b] == covered && covered[b..] + tail == tail;
    }
    if tail == [] {
      assert covered + tail == covered;
    }
  }

  function ForwardEntry<E>(e: Entry<E>, tail: Bytes, parse: Bytes -> Option<E>, st: Stat): Entry<E> {
    var (segments, ends) := UniversalNewlineSegments(tail);
    Entry(st.mtime, st.size, st.inode, e.lines + ParseLines(segments, parse),
          e.coveredEnd + |tail|, ends, e.first, e.byteStart)
  }

  /** Parsing only the appended tail denotes what parsing everything would. */
  lemma {:induction false} ForwardDenotes<E>(e: Entry<E>, covered: Bytes, content: Bytes, parse: Bytes -> Option<E>, missed: nat,
                                             st: Stat)
    requires Denotes(e, covered, parse, missed) && e.ends && covered <= content
    requires !SeamSplitsCrLf(covered, content[|covered|..])
    ensures Denotes(ForwardEntry(e, content[|covered|..], parse, st), content, parse, missed)
    ensures MissedLines(covered) <= MissedLines(content)
  {
    var tail := content[|covered|..];
    assert covered + tail == content;
    SegmentsAreLines(tail);
    SuffixGrows(covered, tail, e.byteStart);
    MissedLinesGrow(covered, tail);
    ParseLinesAppend(Lines(covered[e.byteStart..]), Lines(tail), parse);
  }

  lemma {:induction false} FullDenotes<E>(buf: Bytes, parse: Bytes -> Option<E>, st: Stat)
    ensures Denotes(Entry(st.mtime, st.size, st.inode, ParseLines(Lines(buf), parse), |buf|,
                          EndsOnBoundary(buf), 0, 0), buf, parse, 0)
    ensures Serves(ParseLines(Lines(buf), parse), 0, 0, buf, parse, 0)
  {
    assert buf[..0] == [] && buf[0..] == buf;
  }

  lemma {:induction false} BackwardDenotes<E>(e: Entry<E>, covered: Bytes, w: Walked, count: nat, parse: Bytes -> Option<E>,
                                              missed: nat)
    requires Denotes(e, covered, parse, missed) && count <= e.first
    requires IsTail(covered[..e.byteStart], count, w)
    ensures Denotes(e.(lines := ParseLines(w.texts, parse) + e.lines, first := e.first - count,
                       byteStart := w.byteStart), covered, parse, missed)
  {
    var head := covered[..e.byteStart];
    var b := w.byteStart;
    assert head[..b] == covered[..b];
    assert covered[b..] == head[b..] + covered[e.byteStart..];
    LinesSplit(head, b);
    if b == e.byteStart {
      assert head[b..] == [];
      assert covered[b..] == covered[e.byteStart..];
    } else {
      assert covered[b..][0] == head[b..][0];
      assert head[b..][|head| - b - 1] == head[|head| - 1];
      LinesAppend(head[b..], covered[e.byteStart..]);
    }
    assert w.texts == Lines(head[b..]);
    ParseLinesAppend(w.texts, Lines(covered[e.byteStart..]), parse);
  }

  class LiveRangeMemo<E> {
    const file: LiveFile
    const parse: Bytes -> Option<E>
    const chunkBytes: nat
    const byteBudget: nat
    var memo: Option<Entry<E>>
    ghost var covered: Bytes  // the bytes the memo entry was parsed from
    ghost var missed: nat     // how many lines the entry's index lags behind

    /** An entry lags by no more lines than the counter misses, and one from line 0 on not at all. */
    ghost predicate Valid()
      reads this, file
    {
      && file.Valid()
      && 0 < chunkBytes
      && (memo.Some? ==> Holds(memo.value, covered, missed))
    }

    ghost predicate Holds(e: Entry<E>, bytes: Bytes, lag: nat)
      reads this, file
    {
      && Denotes(e, bytes, parse, lag) && Tracks(e, bytes)
      && lag <= MissedLines(bytes) && (e.first == 0 ==> lag == 0)
    }

    /** How an entry's key and covered bytes relate to the file's history. */
    ghost predicate Tracks(e: Entry<E>, bytes: Bytes)
      reads this, file
    {
      && (e.mtime, e.size) in file.versions
      && file.versions[(e.mtime, e.size)].inode == e.inode
      && file.versions[(e.mtime, e.size)].content <= bytes
      && (e.inode == file.inode ==>
            bytes <= file.content && !SeamSplitsCrLf(bytes, file.content[|bytes|..]))
    }

    /** st was taken in this file version's lifetime, over the bytes atStat. */
    ghost predicate Describes(st: Stat, atStat: Bytes)
      reads this, file
    {
      && st.inode == file.inode
      && st.size == |atStat|
      && (st.mtime, st.size) in file.versions
      && file.versions[(st.mtime, st.size)] == Version(st.inode, atStat)
      && atStat <= file.content
    }

    constructor (f: LiveFile, p: Bytes -> Option<E>, chunk: nat, budget: nat)
      requires f.Valid() && 0 < chunk
      ensures Valid() && file == f && parse == p && chunkBytes == chunk && byteBudget == budget
      ensures memo.None?
    {
      file, parse, chunkBytes, byteBudget := f, p, chunk, budget;
      memo := None;
      covered, missed := [], 0;
    }

    method Store(e: Entry<E>, ghost bytes: Bytes, ghost lag: nat)
      requires file.Valid() && 0 < chunkBytes && Holds(e, bytes, lag)
      modifies this
      ensures Valid() && memo == Some(e) && covered == bytes && missed == lag
    {
      memo := Some(e);
      covered, missed := bytes, lag;
    }

    /** The LRU map may drop the path at any time. */
    method Evict()
      requires Valid()
      modifies this
      ensures Valid() && memo.None?
    {
      memo := None;
    }

    method AppendToFile(bytes: Bytes, at: int)
      requires Valid() && file.MayAppend(bytes, at)
      modifies this, file
      ensures Valid() && memo == old(memo) && covered == old(covered) && missed == old(missed)
      ensures file.content == old(file.content) + bytes && file.inode == old(file.inode) && file.mtime == at
      ensures file.versions == old(file.versions)[(at, |file.content|) := Version(file.inode, file.content)]
    {
      file.Append(bytes, at);
      if memo.Some? && memo.value.inode == file.inode && |covered| < old(|file.content|) {
        assert file.content[|covered|..][0] == old(file.content)[|covered|..][0];
      }
    }

    method Race(l: Landing)
      requires Valid()
      modifies this, file
      ensures Valid() && memo == old(memo) && covered == old(covered) && missed == old(missed)
      ensures old(file.content) <= file.content && file.inode == old(file.inode)
      ensures forall sig :: sig in old(file.versions) ==>
                sig in file.versions && file.versions[sig] == old(file.versions)[sig]
      ensures !SeamSplitsCrLf(old(file.content), file.content[|old(file.content)|..])
      ensures l.Quiet? ==> unchanged(file)
    {
      if l.Lands? && file.MayAppend(l.bytes, l.at) {
        AppendToFile(l.bytes, l.at);
      }
    }

    method RewriteFile(bytes: Bytes, at: int, ino: int)
      requires Valid() && file.MayRewrite(bytes, at, ino)
      modifies this, file
      ensures Valid() && memo == old(memo) && covered == old(covered) && missed == old(missed)
      ensures file.content == bytes && file.inode == ino && file.mtime == at
      ensures file.versions == old(file.versions)[(at, |bytes|) := Version(ino, bytes)]
    {
      file.Rewrite(bytes, at, ino);
    }

    /** _extend_lines_forward: parse what follows the covered bytes onto the entry. */
    method ExtendForward(st: Stat, ghost atStat: Bytes)
      requires Valid() && memo.Some? && memo.value.ends
      requires memo.value.inode == st.inode && Describes(st, atStat)
      modifies this
      ensures Valid() && memo.Some? && covered == file.content && missed == old(missed)
      ensures memo.value.mtime == st.mtime && memo.value.size == st.size && memo.value.inode == st.inode
    {
      ForwardDenotes(memo.value, covered, file.content, parse, missed, st);
      Store(ForwardEntry(memo.value, file.content[memo.value.coveredEnd..], parse, st), file.content, missed);
    }

    /** _extend_lines_backward: walk the lines [relStart, first) before the covered bytes. */
    method ExtendBackward(relStart: nat) returns (lines: Option<seq<Option<E>>>)
      requires Valid() && memo.Some? && 0 < relStart < memo.value.first
      requires memo.value.inode == file.inode
      modifies this
      ensures Valid() && covered == old(covered) && missed == old(missed)
      ensures lines.None? ==> memo == old(memo)
      ensures lines.Some? ==> Serves(lines.value, relStart, relStart, covered, parse, missed)
    {
      var e := memo.value;
      ghost var span;
      var walked;
      walked, span := WalkTailLineTexts(file.content, e.byteStart, e.first - relStart, chunkBytes, byteBudget);
      if walked.None? {
        return None;
      }
      assert file.content[..e.byteStart] == covered[..e.byteStart];
      BackwardDenotes(e, covered, walked.value, e.first - relStart, parse, missed);
      var grown := ParseLines(walked.value.texts, parse) + e.lines;
      Store(Entry(e.mtime, e.size, e.inode, grown, e.coveredEnd, e.ends, relStart, walked.value.byteStart), covered, missed);
      DenotesServes(memo.value, covered, parse, missed, relStart);
      return Some(grown);
    }

    /**
     * _build_lines_walk: count, re-stat, and walk the last lines of the stat's bytes.  Appends may
     * land before the count, before the second stat and before the walk.
     */
    method BuildWalk(st: Stat, relStart: nat, races: Races, ghost atStat: Bytes)
      returns (lines: Option<seq<Option<E>>>)
      requires Valid() && 0 < relStart
      requires Describes(st, atStat)
      modifies this, file
      ensures Valid() && Describes(st, atStat) && old(file.content) <= file.content && file.inode == old(file.inode)
      ensures lines.Some? ==>
                && lines.value == ParseLines(WalkAnswer(atStat, relStart), parse)
                && Serves(lines.value, relStart, relStart, atStat, parse, MissedLines(atStat))
      ensures races == NO_RACES ==> unchanged(file)
      ensures races == NO_RACES && st == old(file.StatNow()) && |atStat| <= byteBudget ==> lines.Some?
    {
      Race(races.beforeCount);
      var total := CountNdjsonLines(file.content);
      ghost var counted := file.content;
      Race(races.beforeRestat);
      if file.StatNow() != st {
        return None;
      }
      assert counted == atStat == file.content;
      lines := WalkCounted(st, relStart, total - relStart, races.beforeWalk, atStat);
    }

    /** The rest of the build once the counted content is known to be the stat's. */
    method WalkCounted(st: Stat, relStart: nat, count: int, l: Landing, ghost atStat: Bytes)
      returns (lines: Option<seq<Option<E>>>)
      requires Valid() && 0 < relStart && Describes(st, atStat) && file.content == atStat
      requires count + relStart == CountNdjsonLines(atStat)
      modifies this, file
      ensures Valid() && Describes(st, atStat) && old(file.content) <= file.content && file.inode == old(file.inode)
      ensures lines.Some? ==>
                && lines.value == ParseLines(WalkAnswer(atStat, relStart), parse)
                && Serves(lines.value, relStart, relStart, atStat, parse, MissedLines(atStat))
      ensures l.Quiet? ==> unchanged(file)
      ensures |atStat| <= byteBudget ==> lines.Some?
    {
      MissedLinesAre(atStat);
      if count <= 0 {
        WalkAnswerLags(atStat, relStart);
        return Some([]);
      }
      Race(l);
      assert file.content[..st.size] == atStat;
      ghost var span;
      var walked;
      walked, span := WalkTailLineTexts(file.content, st.size, count, chunkBytes, byteBudget);
      if walked.None? {
        return None;
      }
      var parsed := StoreWalked(st, relStart, count, walked.value, atStat);
      return Some(parsed);
    }

    /** The walked lines become the entry's covered suffix. */
    method StoreWalked(st: Stat, relStart: nat, ghost count: nat, w: Walked, ghost atStat: Bytes)
      returns (parsed: seq<Option<E>>)
      requires Valid() && 0 < relStart && Describes(st, atStat) && IsTail(atStat, count, w)
      requires count + relStart == CountNdjsonLines(atStat)
      requires file.content == atStat || !SeamSplitsCrLf(atStat, file.content[|atStat|..])
      modifies this
      ensures Valid() && parsed == ParseLines(WalkAnswer(atStat, relStart), parse)
      ensures Serves(parsed, relStart, relStart, atStat, parse, MissedLines(atStat))
    {
      MissedLinesAre(atStat);
      WalkAnswerLags(atStat, relStart);
      LinesSplit(atStat, w.byteStart);
      parsed := ParseLines(w.texts, parse);
      Store(Entry(st.mtime, st.size, st.inode, parsed, st.size, w.ends, relStart, w.byteStart), atStat, MissedLines(atStat));
    }

    /** The whole-file fallback of _live_range_lines. */
    method FullBuild(st: Stat, l: Landing, ghost atStat: Bytes) returns (lines: seq<Option<E>>)
      requires Valid() && Describes(st, atStat)
      modifies this, file
      ensures Valid() && old(file.content) <= file.content && file.inode == old(file.inode)
      ensures Serves(lines, 0, 0, file.content, parse, 0)
      ensures l.Quiet? ==> unchanged(file)
    {
      Race(l);
      var buf := file.content;
      var (segments, ends) := UniversalNewlineSegments(buf);
      SegmentsAreLines(buf);
      lines := ParseLines(segments, parse);
      FullDenotes(buf, parse, st);
      Store(Entry(st.mtime, st.size, st.inode, lines, |buf|, ends, 0, 0), buf, 0);
    }

    /**
     * _live_range_lines, for every content of the file.  `snapshot` is the content the answer was
     * cut from, and `lag` how many lines its index is off: none for a read from line 0, and none
     * when the LF-only counter is right about the snapshot.
     */
    method LiveRangeLines(relStart: nat, races: Races)
      returns (lines: seq<Option<E>>, start: nat, ghost snapshot: Bytes, ghost lag: nat)
      requires Valid()
      modifies this, file
      ensures Valid()
      ensures old(file.content) <= snapshot <= file.content && file.inode == old(file.inode)
      ensures Serves(lines, start, relStart, snapshot, parse, lag)
      ensures lag <= MissedLines(snapshot) && (relStart == 0 ==> lag == 0)
      ensures races == NO_RACES ==> unchanged(file)
      ensures old(memo).None? && relStart > 0 && races == NO_RACES && |old(file.content)| <= byteBudget ==>
                lag == MissedLines(snapshot)
    {
      var st := file.StatNow();
      ghost var atStat := file.content;
      Race(races.afterStat);
      if memo.Some? && !(memo.value.mtime == st.mtime && memo.value.size == st.size)
         && memo.value.inode == st.inode && st.size >= memo.value.coveredEnd && memo.value.ends {
        ExtendForward(st, atStat);
      }
      if memo.Some? && memo.value.mtime == st.mtime && memo.value.size == st.size {
        lines, start, snapshot, lag := ServeMemo(st, atStat, relStart, races);
        return;
      }
      if relStart > 0 {
        var built := BuildWalk(st, relStart, races, atStat);
        if built.Some? {
          return built.value, relStart, atStat, MissedLines(atStat);
        }
      }
      lines := FullBuild(st, races.beforeRead, atStat);
      return lines, 0, file.content, 0;
    }

    /** The branch on an entry that is current for the stat: serve it, extend it backward, or rebuild. */
    method ServeMemo(st: Stat, ghost atStat: Bytes, relStart: nat, races: Races)
      returns (lines: seq<Option<E>>, start: nat, ghost snapshot: Bytes, ghost lag: nat)
      requires Valid() && memo.Some? && memo.value.mtime == st.mtime && memo.value.size == st.size
      requires Describes(st, atStat)
      modifies this, file
      ensures Valid()
      ensures races == NO_RACES ==> unchanged(file)
      ensures atStat <= snapshot <= file.content && file.inode == old(file.inode)
      ensures Serves(lines, start, relStart, snapshot, parse, lag)
      ensures lag <= MissedLines(snapshot) && (relStart == 0 ==> lag == 0)
    {
      assert atStat <= covered <= file.content;
      if relStart >= memo.value.first {
        DenotesServes(memo.value, covered, parse, missed, relStart);
        return memo.value.lines, memo.value.first, covered, missed;
      }
      if relStart > 0 {
        Race(races.beforeWalk);
        var extended := ExtendBackward(relStart);
        if extended.Some? {
          return extended.value, relStart, covered, missed;
        }
      }
      lines := FullBuild(st, races.beforeRead, atStat);
      return lines, 0, file.content, 0;
    }

    /** The live half of load_chat_events_range: the window's events, holes skipped. */
    method LoadPage(relStart: nat, relEnd: nat, races: Races)
      returns (page: seq<E>, ghost snapshot: Bytes, ghost lag: nat)
      requires Valid() && relStart <= relEnd
      modifies this, file
      ensures Valid()
      ensures old(file.content) <= snapshot <= file.content && file.inode == old(file.inode)
      ensures page == PageOf(snapshot, relStart + lag, relEnd + lag, parse)
      ensures lag <= MissedLines(snapshot) && (relStart == 0 ==> lag == 0)
      ensures races == NO_RACES ==> unchanged(file)
      ensures old(memo).None? && relStart > 0 && races == NO_RACES && |old(file.content)| <= byteBudget ==>
                lag == MissedLines(snapshot)
    {
      var lines, start;
      lines, start, snapshot, lag := LiveRangeLines(relStart, races);
      ServedWindow(lines, start, relStart, relEnd, snapshot, parse, lag);
      page := Present(Clip(lines, relStart - start, relEnd - start));
    }
  }

  /** The reference page: split and parse everything, slice, drop the holes. */
  function PageOf<E>(content: Bytes, lo: nat, hi: nat, parse: Bytes -> Option<E>): seq<E> {
    Present(Clip(ParseLines(Lines(content), parse), lo, hi))
  }

  /** A page of one line is its event, if it has one. */
  lemma {:induction false} PageOfLine<E>(content: Bytes, i: nat, parse: Bytes -> Option<E>)
    ensures PageOf(content, i, i + 1, parse) ==
            if i < |Lines(content)| && parse(Lines(content)[i]).Some? then [parse(Lines(content)[i]).value] else []
  {
    var slots := ParseLines(Lines(content), parse);
    var c := Clip(slots, i, i + 1);
    if i < |slots| {
      assert c == [slots[i]] && c[1..] == [] && Present(c[1..]) == [];
      assert slots[i] == parse(Lines(content)[i]);
    } else {
      assert c == [];
    }
  }

  /** Pages of adjacent ranges add up, and a range that ends before it starts is empty. */
  lemma {:induction false} PagesAddUp<E>(content: Bytes, lo: nat, mid: nat, hi: nat, parse: Bytes -> Option<E>)
    requires lo <= mid <= hi
    ensures PageOf(content, lo, hi, parse) == PageOf(content, lo, mid, parse) + PageOf(content, mid, hi, parse)
    ensures PageOf(content, mid, lo, parse) == []
  {
    var slots := ParseLines(Lines(content), parse);
    assert Clip(slots, lo, hi) == Clip(slots, lo, mid) + Clip(slots, mid, hi);
    PresentAppend(Clip(slots, lo, mid), Clip(slots, mid, hi));
    assert Clip(slots, mid, lo) == [];
  }

  lemma {:induction false} ServedWindow<E>(lines: seq<Option<E>>, start: nat, lo: nat, hi: nat, snapshot: Bytes,
                                           parse: Bytes -> Option<E>, lag: nat)
    requires Serves(lines, start, lo, snapshot, parse, lag) && lo <= hi
    ensures Clip(lines, lo - start, hi - start) == Clip(ParseLines(Lines(snapshot), parse), lo + lag, hi + lag)
  {
    var all := ParseLines(Lines(snapshot), parse);
    assert lines == From(all, start + lag);
    ClipOfSuffix(all, start + lag, lo + lag, hi + lag);
  }

  lemma {:induction false} ClipOfSuffix<T>(s: seq<T>, start: nat, lo: nat, hi: nat)
    requires start <= lo <= hi
    ensures Clip(From(s, start), lo - start, hi - start) == Clip(s, lo, hi)
  {
    var c, d := Clip(From(s, start), lo - start, hi - start), Clip(s, lo, hi);
    if |s| <= lo {
      assert c == [] && d == [];
    } else {
      assert |c| == |d|;
      forall i | 0 <= i < |c| ensures c[i] == d[i] {}
    }
  }

  datatype Step =
    | Appended(bytes: Bytes, at: int)
    | Rewritten(bytes: Bytes, at: int, ino: int)
    | Evicted
    | Read(lo: nat, hi: nat, races: Races)

  /** An append takes effect if its stat is new and it tears no CRLF. */
  function AfterAppend(f: FileState, bytes: Bytes, at: int): FileState {
    if bytes == [] || (at, |f.content| + |bytes|) in f.versions || SeamSplitsCrLf(f.content, bytes) then f
    else
      var grown := f.content + bytes;
      FileState(grown, at, f.inode, f.versions[(at, |grown|) := Version(f.inode, grown)])
  }

  /** A rewrite takes effect if its stat and its inode are new. */
  ghost function AfterRewrite(f: FileState, bytes: Bytes, at: int, ino: int): FileState {
    if (at, |bytes|) in f.versions || (exists sig :: sig in f.versions && f.versions[sig].inode == ino) then f
    else FileState(bytes, at, ino, f.versions[(at, |bytes|) := Version(ino, bytes)])
  }

  /**
   * What one step does to the file and answers: only reads answer, and a read answers the page of
   * a content the file held during the step, off by no more lines than the counter misses of it.
   */
  ghost predicate Honest<E>(step: Step, before: FileState, after: FileState, page: Option<seq<E>>, snapshot: Bytes,
                            lag: nat, parse: Bytes -> Option<E>)
  {
    match step
    case Appended(bytes, at) => page.None? && after == AfterAppend(before, bytes, at)
    case Rewritten(bytes, at, ino) => page.None? && after == AfterRewrite(before, bytes, at, ino)
    case Evicted => page.None? && after == before
    case Read(lo, hi, races) =>
      && before.content <= snapshot <= after.content && after.inode == before.inode
      && (races == NO_RACES ==> after == before)
      && lag <= MissedLines(snapshot) && (lo == 0 ==> lag == 0)
      && page == Some(PageOf(snapshot, lo + lag, hi + lag, parse))
  }

  method ChangeFile<E>(store: LiveRangeMemo<E>, step: Step)
    requires store.Valid() && (step.Appended? || step.Rewritten?)
    modifies store, store.file
    ensures store.Valid()
    ensures Honest(step, old(store.file.State()), store.file.State(), None, old(store.file.content), 0, store.parse)
  {
    match step
    case Appended(bytes, at) =>
      if store.file.MayAppend(bytes, at) {
        store.AppendToFile(bytes, at);
      }
    case Rewritten(bytes, at, ino) =>
      if store.file.MayRewrite(bytes, at, ino) {
        store.RewriteFile(bytes, at, ino);
      }
  }

  /** One step of a run. */
  method Perform<E>(store: LiveRangeMemo<E>, step: Step)
      returns (page: Option<seq<E>>, ghost snapshot: Bytes, ghost lag: nat)
    requires store.Valid()
    modifies store, store.file
    ensures store.Valid()
    ensures Honest(step, old(store.file.State()), store.file.State(), page, snapshot, lag, store.parse)
  {
    page, snapshot, lag := None, store.file.content, 0;
    match step
    case Evicted => store.Evict();
    case Read(lo, hi, races) =>
      if lo <= hi {
        var events;
        events, snapshot, lag := store.LoadPage(lo, hi, races);
        page := Some(events);
      } else {
        page := Some([]);
      }
    case _ => ChangeFile(store, step);
  }

  /**
   * Any run of appends, inode-swapping rewrites, evictions and racing page reads, on any contents.
   * files[k] is the file before step k: each read answers the page of a content the file held
   * during that read, off by no more lines than the LF-only counter misses of it.
   */
  method Replay<E>(store: LiveRangeMemo<E>, steps: seq<Step>)
    returns (pages: seq<Option<seq<E>>>, ghost files: seq<FileState>, ghost snapshots: seq<Bytes>, ghost lags: seq<nat>)
    requires store.Valid()
    modifies store, store.file
    ensures store.Valid()
    ensures |pages| == |snapshots| == |lags| == |steps| && |files| == |steps| + 1
    ensures files[0] == old(store.file.State()) && files[|steps|] == store.file.State()
    ensures forall k :: 0 <= k < |steps| ==>
              Honest(steps[k], files[k], files[k + 1], pages[k], snapshots[k], lags[k], store.parse)
  {
    pages, files, snapshots, lags := [], [store.file.State()], [], [];
    for k := 0 to |steps|
      invariant store.Valid()
      invariant |pages| == |snapshots| == |lags| == k && |files| == k + 1
      invariant files[0] == old(store.file.State()) && files[k] == store.file.State()
      invariant forall i :: 0 <= i < k ==>
                  Honest(steps[i], files[i], files[i + 1], pages[i], snapshots[i], lags[i], store.parse)
    {
      var page;
      ghost var snapshot, lag;
      page, snapshot, lag := Perform(store, steps[k]);
      pages, files := pages + [page], files + [store.file.State()];
      snapshots, lags := snapshots + [snapshot], lags + [lag];
    }
  }

  // ---------------------------------------------------------------------------
  // What a lone CR does to the walk
  // ---------------------------------------------------------------------------

  /** The list a cold walk answers for [relStart, end) when it trusts the LF-only count. */
  ghost function WalkAnswer(content: Bytes, relStart: nat): seq<Bytes> {
    var count := CountNdjsonLines(content) - relStart;
    var lines := Lines(content);
    if count <= 0 || count > |lines| then [] else lines[|lines| - count..]
  }

  /** The walk's list starts as many lines late as the counter misses. */
  lemma {:induction false} WalkAnswerLags(content: Bytes, relStart: nat)
    ensures WalkAnswer(content, relStart) == From(Lines(content), relStart + MissedLines(content))
  {
    MissedLinesAre(content);
  }

  /**
   * On a cold memo the walk's list is the true suffix from relStart exactly when the LF-only
   * count is the line count, or the window starts past both.
   */
  lemma {:induction false} WalkAnswerExact(content: Bytes, relStart: nat)
    ensures WalkAnswer(content, relStart) == From(Lines(content), relStart) <==>
            (LoneCrCount(content) == 0 || (LoneCrCount(content) == 1 && content[|content| - 1] == CR)
             || (CountNdjsonLines(content) <= relStart && |Lines(content)| <= relStart))
  {
    CountAgreesIff(content);
    LineCountFormula(content);
    var count, n := CountNdjsonLines(content), |Lines(content)|;
    if count != n && (relStart < count || relStart < n) {
      assert |WalkAnswer(content, relStart)| != |From(Lines(content), relStart)|;
    }
  }

  /** A lone CR makes line 1 of the walk the file's line 2. */
  lemma {:induction false} LoneCrMislabelsLines()
    ensures var content: Bytes := [97, CR, 98, LF, 99, LF];
            && Lines(content) == [[97], [98], [99]]
            && WalkAnswer(content, 1) == [[99]]
            && From(Lines(content), 1) == [[98], [99]]
  {
    var content: Bytes := [97, CR, 98, LF, 99, LF];
    var tail: Bytes := [98, LF, 99, LF];
    var last: Bytes := [99, LF];
    FirstLine(content, 1, 2);
    FirstLine(tail, 1, 2);
    FirstLine(last, 1, 2);
    assert content[..1] == [97] && content[2..] == tail;
    assert tail[..1] == [98] && tail[2..] == last;
    assert last[..1] == [99] && last[2..] == [];
    assert content[1..][1..] == tail && tail[1..][1..] == last && last[1..][1..] == [];
    assert LfCount(content) == LfCount(content[1..][1..]);
    assert LfCount(tail) == 1 + LfCount(last);
    assert LfCount(last[1..]) == 1;
  }

  function Kept(line: Bytes): Option<Bytes> {
    Some(line)
  }

  const MISCOUNTED: Bytes := [97, CR, 98, LF, 99, LF]

  lemma {:induction false} MiscountedPages()
    ensures MissedLines(MISCOUNTED) == 1
    ensures PageOf(MISCOUNTED, 1, 2, Kept) == [[98]] && PageOf(MISCOUNTED, 2, 3, Kept) == [[99]]
  {
    LoneCrMislabelsLines();
    var lines: seq<Bytes> := [[97], [98], [99]];
    assert ParseLines(lines, Kept) == [Some([97]), Some([98]), Some([99])];
    OnlyOne<Bytes>([98]);
    OnlyOne<Bytes>([99]);
    assert Clip(ParseLines(lines, Kept), 1, 2) == [Some([98])];
    assert Clip(ParseLines(lines, Kept), 2, 3) == [Some([99])];
    MissedLinesAre(MISCOUNTED);
    assert WalkAnswer(MISCOUNTED, 1) == lines[2..];
    assert From(lines, 1 + MissedLines(MISCOUNTED)) == lines[2..] by { WalkAnswerLags(MISCOUNTED, 1); }
  }

  lemma {:induction false} OnlyOne<T>(x: T)
    ensures Present([Some(x)]) == [x]
  {
    assert [Some(x)][1..] == [];
  }

  /** On that content a cold memo answers the page of line 1 with line 2. */
  method ServesTheWrongLine() returns (page: seq<Bytes>)
    ensures page == [[99]] && PageOf(MISCOUNTED, 1, 2, Kept) == [[98]]
  {
    var file := new LiveFile(MISCOUNTED, 0, 0);
    var store := new LiveRangeMemo(file, Kept, 4, 1024);
    MiscountedPages();
    ghost var snapshot, lag;
    page, snapshot, lag := store.LoadPage(1, 2, NO_RACES);
    assert snapshot == MISCOUNTED;
  }
}
