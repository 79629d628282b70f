/**
 * Weekly rotation and global indices: a rotation moves the leading events older than a cutoff
 * from the live file to an archive file, and pages keep addressing events by the same global
 * index across both halves.
 */
module Archive {
  import opened Prelude
  import opened PhysicalLines
  import opened LiveRange

  /** What one physical line is to the readers and to the rotation. */
  datatype LineKind<+E> =
    | Blank                                // empty or whitespace: invisible
    | Malformed                            // the JSON parser rejects it
    | Event(e: E, timestamp: Option<int>)  // a parsed event; None when it carries no usable timestamp

  /** The reader's view of a line: only a parsed event fills its slot. */
  function ParseWith<E>(classify: Bytes -> LineKind<E>): Bytes -> Option<E> {
    (line: Bytes) => match classify(line) case Event(e, _) => Some(e) case _ => None
  }

  // ---------------------------------------------------------------------------
  // Where a rotation splits
  // ---------------------------------------------------------------------------

  predicate IsOld<E>(kind: LineKind<E>, cutoff: int) {
    kind.Event? && kind.timestamp.Some? && kind.timestamp.value < cutoff
  }

  /** The first line that is neither blank nor an event before the cutoff. */
  function SplitPoint<E>(lines: seq<Bytes>, classify: Bytes -> LineKind<E>, cutoff: int): (n: nat)
    ensures n <= |lines|
    ensures forall i :: 0 <= i < n ==> classify(lines[i]).Blank? || IsOld(classify(lines[i]), cutoff)
    ensures n < |lines| ==> !classify(lines[n]).Blank? && !IsOld(classify(lines[n]), cutoff)
  {
    if lines == [] then 0
    else if classify(lines[0]).Blank? || IsOld(classify(lines[0]), cutoff)
    then 1 + SplitPoint(lines[1..], classify, cutoff)
    else 0
  }

  /** A line the rotation takes: nothing but white space, or an event that carries a time before the cutoff. */
  predicate GoesAway<E>(kind: LineKind<E>, cutoff: int) {
    match kind
    case Blank => true
    case Malformed => false
    case Event(_, timestamp) => timestamp.Some? && timestamp.value <= cutoff - 1
  }

  /** The split is the first line that does not go away: a malformed one, or an event without a time or at or after the cutoff. */
  lemma {:induction false} SplitIs<E>(lines: seq<Bytes>, classify: Bytes -> LineKind<E>, cutoff: int, n: nat)
    ensures n == SplitPoint(lines, classify, cutoff) <==>
              && n <= |lines|
              && (forall i :: 0 <= i < n ==> GoesAway(classify(lines[i]), cutoff))
              && (n < |lines| ==> !GoesAway(classify(lines[n]), cutoff))
  {
  }

  function NonBlank<E>(lines: seq<Bytes>, classify: Bytes -> LineKind<E>): seq<Bytes> {
    if lines == [] then []
    else (if classify(lines[0]).Blank? then [] else [lines[0]]) + NonBlank(lines[1..], classify)
  }

  lemma {:induction false} NonBlankSnoc<E>(lines: seq<Bytes>, line: Bytes, classify: Bytes -> LineKind<E>)
    ensures NonBlank(lines + [line], classify) ==
            NonBlank(lines, classify) + (if classify(line).Blank? then [] else [line])
  {
    if lines == [] {
      assert lines + [line] == [line];
    } else {
      NonBlankSnoc(lines[1..], line, classify);
      assert (lines + [line])[1..] == lines[1..] + [line];
    }
  }

  /** The split loop of archive_old_chat_events_sync over the live file's lines. */
  method SplitLines<E>(lines: seq<Bytes>, classify: Bytes -> LineKind<E>, cutoff: int)
    returns (archived: seq<Bytes>, kept: seq<Bytes>)
    ensures var n := SplitPoint(lines, classify, cutoff);
            archived == NonBlank(lines[..n], classify) && kept == lines[n..]
  {
    archived, kept := [], [];
    var splitReached := false;
    ghost var n := SplitPoint(lines, classify, cutoff);
    for i := 0 to |lines|
      invariant splitReached <==> i > n
      invariant splitReached ==> archived == NonBlank(lines[..n], classify) && kept == lines[n..i]
      invariant !splitReached ==> archived == NonBlank(lines[..i], classify) && kept == []
    {
      var raw := lines[i];
      if splitReached {
        kept := kept + [raw];
        continue;
      }
      NonBlankSnoc(lines[..i], raw, classify);
      assert lines[..i] + [raw] == lines[..i + 1];
      match classify(raw)
      case Blank =>
        continue;
      case Malformed =>
        splitReached := true;
        kept := kept + [raw];
      case Event(_, timestamp) =>
        if timestamp.None? {
          splitReached := true;
          kept := kept + [raw];
        } else if timestamp.value < cutoff {
          archived := archived + [raw];
        } else {
          splitReached := true;
          kept := kept + [raw];
        }
    }
    assert lines[..|lines|] == lines;
    assert lines[n..|lines|] == lines[n..];
  }

  // ---------------------------------------------------------------------------
  // Pages over slots
  // ---------------------------------------------------------------------------

  /** The page [lo, hi) of a slot sequence: slice, then drop the holes. */
  function Page<E>(slots: seq<Option<E>>, lo: nat, hi: nat): seq<E> {
    Present(Clip(slots, lo, hi))
  }

  function Filled<E>(events: seq<E>): seq<Option<E>> {
    seq(|events|, i requires 0 <= i < |events| => Some(events[i]))
  }

  ghost predicate SamePages<E(!new)>(s: seq<Option<E>>, t: seq<Option<E>>) {
    forall lo: nat, hi: nat :: Page(s, lo, hi) == Page(t, lo, hi)
  }

  /** No event of p + k sits after a hole of p. */
  predicate NoEventAfterHole<E>(p: seq<Option<E>>, k: seq<Option<E>>) {
    p == [] || if p[0].None? then Present(p[1..] + k) == [] else NoEventAfterHole(p[1..], k)
  }

  lemma {:induction false} PresentFilled<E>(events: seq<E>)
    ensures Present(Filled(events)) == events
  {
    if events != [] {
      assert Filled(events)[1..] == Filled(events[1..]);
      PresentFilled(events[1..]);
    }
  }

  function At<E>(s: seq<Option<E>>, i: nat): Option<E> {
    if i < |s| then s[i] else None
  }

  ghost predicate SameSlots<E>(s: seq<Option<E>>, t: seq<Option<E>>) {
    forall i: nat :: At(s, i) == At(t, i)
  }

  lemma {:induction false} PageStep<E>(s: seq<Option<E>>, lo: nat, hi: nat)
    requires lo < hi
    ensures Page(s, lo, hi) == (if At(s, lo).Some? then [At(s, lo).value] else []) + Page(s, lo + 1, hi)
  {
    if lo < |s| {
      var c := Clip(s, lo, hi);
      assert c[1..] == Clip(s, lo + 1, hi);
    }
  }

  lemma {:induction false} SameSlotsSamePage<E>(s: seq<Option<E>>, t: seq<Option<E>>, lo: nat, hi: nat)
    requires SameSlots(s, t)
    ensures Page(s, lo, hi) == Page(t, lo, hi)
    decreases hi - lo
  {
    if lo < hi {
      PageStep(s, lo, hi);
      PageStep(t, lo, hi);
      SameSlotsSamePage(s, t, lo + 1, hi);
      assert At(s, lo) == At(t, lo);
    }
  }

  /** Pages see exactly the slots: two sequences have the same pages iff each index reads the same. */
  lemma {:induction false} PagesAreSlots<E(!new)>(s: seq<Option<E>>, t: seq<Option<E>>)
    ensures SamePages(s, t) <==> SameSlots(s, t)
  {
    if SameSlots(s, t) {
      forall lo: nat, hi: nat ensures Page(s, lo, hi) == Page(t, lo, hi) {
        SameSlotsSamePage(s, t, lo, hi);
      }
    }
    if SamePages(s, t) {
      forall i: nat ensures At(s, i) == At(t, i) {
        PageStep(s, i, i + 1);
        PageStep(t, i, i + 1);
        assert Page(s, i, i + 1) == Page(t, i, i + 1);
        assert Page(s, i, i + 1) == if At(s, i).Some? then [At(s, i).value] else [];
        assert Page(t, i, i + 1) == if At(t, i).Some? then [At(t, i).value] else [];
      }
    }
  }

  /** The index of the last event, or -1. */
  function LastEvent<E>(s: seq<Option<E>>): int {
    if s == [] then -1
    else
      var rest := LastEvent(s[1..]);
      if rest >= 0 then rest + 1 else if s[0].Some? then 0 else -1
  }

  lemma {:induction false} LastEventIs<E>(s: seq<Option<E>>)
    ensures -1 <= LastEvent(s) < |s|
    ensures LastEvent(s) >= 0 ==> s[LastEvent(s)].Some?
    ensures forall i :: LastEvent(s) < i < |s| ==> s[i].None?
    ensures LastEvent(s) == -1 <==> Present(s) == []
  {
    if s != [] {
      LastEventIs(s[1..]);
      assert forall i :: 0 < i < |s| ==> s[i] == s[1..][i - 1];
    }
  }

  /** Without its first slot, the compacted sequence is that of the rest. */
  lemma {:induction false} CompactTail<E>(p: seq<Option<E>>, k: seq<Option<E>>)
    requires p != []
    ensures p[0].None? ==> Filled(Present(p)) + k == Filled(Present(p[1..])) + k
    ensures p[0].Some? ==>
              var c := Filled(Present(p)) + k;
              c != [] && c[0] == p[0] && c[1..] == Filled(Present(p[1..])) + k
  {
    if p[0].None? {
      assert Present(p) == Present(p[1..]);
    } else {
      FilledCons(p[0].value, Present(p[1..]), k);
    }
  }

  lemma {:induction false} FilledCons<E>(x: E, rest: seq<E>, k: seq<Option<E>>)
    ensures Filled([x] + rest) + k == [Some(x)] + (Filled(rest) + k)
  {
  }

  lemma {:induction false} CompactShifts<E>(p: seq<Option<E>>, k: seq<Option<E>>)
    ensures LastEvent(Filled(Present(p)) + k) <= LastEvent(p + k)
    ensures !NoEventAfterHole(p, k) ==> LastEvent(Filled(Present(p)) + k) < LastEvent(p + k)
  {
    if p == [] {
      assert Filled(Present(p)) + k == p + k;
    } else {
      CompactShifts(p[1..], k);
      assert (p + k)[1..] == p[1..] + k;
      LastEventIs(p[1..] + k);
      CompactTail(p, k);
    }
  }

  lemma {:induction false} CompactKeepsSlots<E>(p: seq<Option<E>>, k: seq<Option<E>>)
    requires NoEventAfterHole(p, k)
    ensures SameSlots(p + k, Filled(Present(p)) + k)
  {
    if p == [] {
      assert Filled(Present(p)) + k == p + k;
    } else if p[0].None? {
      PresentAppend(p[1..], k);
      assert Present(p) == [] && Filled(Present(p)) + k == k;
      LastEventIs(p[1..] + k);
      forall i: nat ensures At(p + k, i) == At(k, i) {
        assert 0 < i < |p| + |k| ==> (p + k)[i] == (p[1..] + k)[i - 1];
        assert i < |k| ==> k[i] == (p[1..] + k)[|p| - 1 + i];
      }
    } else {
      CompactKeepsSlots(p[1..], k);
      var s, t := p + k, Filled(Present(p)) + k;
      assert s[1..] == p[1..] + k && t[1..] == Filled(Present(p[1..])) + k;
      forall i: nat ensures At(s, i) == At(t, i) {
        assert i > 0 ==> At(s, i) == At(s[1..], i - 1) && At(t, i) == At(t[1..], i - 1);
      }
    }
  }

  /** Compacting p leaves every page of p + k alone exactly when no event follows a hole of p. */
  lemma {:induction false} CompactPagesExact<E(!new)>(p: seq<Option<E>>, k: seq<Option<E>>)
    ensures SamePages(p + k, Filled(Present(p)) + k) <==> NoEventAfterHole(p, k)
  {
    var s, t := p + k, Filled(Present(p)) + k;
    PagesAreSlots(s, t);
    if NoEventAfterHole(p, k) {
      CompactKeepsSlots(p, k);
    } else {
      CompactShifts(p, k);
      LastEventIs(s);
      LastEventIs(t);
      assert At(s, LastEvent(s)) != At(t, LastEvent(s));
    }
  }

  /**
   * The warm cache numbers parsed events and the disk numbers physical lines: their pages agree
   * for every range exactly when no event follows a skipped line.
   */
  lemma {:induction false} WarmCachePagesExact<E(!new)>(slots: seq<Option<E>>)
    ensures (forall lo: nat, hi: nat :: Clip(Present(slots), lo, hi) == Page(slots, lo, hi)) <==>
            NoEventAfterHole(slots, [])
  {
    var compact := Filled(Present(slots));
    forall lo: nat, hi: nat
      ensures Page(compact, lo, hi) == Clip(Present(slots), lo, hi)
    {
      PresentFilled(Clip(Present(slots), lo, hi));
      assert Clip(compact, lo, hi) == Filled(Clip(Present(slots), lo, hi));
    }
    assert slots + [] == slots && compact + [] == compact;
    CompactPagesExact(slots, []);
  }

  // ---------------------------------------------------------------------------
  // Archive files
  // ---------------------------------------------------------------------------

  const WEEK_MICROS := 7 * 86_400_000_000

  /** The ISO week of an instant, as its chronological index (weeks start on Monday). */
  function IsoWeekIndex(instant: int): int {
    (instant + 3 * 86_400_000_000) / WEEK_MICROS
  }

  const DAY_MICROS := 86_400_000_000

  /** Weeks run from Monday to Monday: week k + 1 starts seven times k days after Monday 1970-01-05. */
  lemma {:induction false} WeeksStartOnMonday(k: int, into: int)
    requires 0 <= into < 7 * DAY_MICROS
    ensures IsoWeekIndex(4 * DAY_MICROS + 7 * DAY_MICROS * k + into) == k + 1
  {
  }

  /** One file of the sorted archive listing. */
  datatype ArchiveFile = ArchiveFile(week: int, bytes: Bytes)

  /** Archive files hold whole LF-ended lines, one file a week. */
  ghost predicate ListingOk(files: seq<ArchiveFile>) {
    && (forall i, j :: 0 <= i < j < |files| ==> files[i].week < files[j].week)
    && (forall i :: 0 <= i < |files| ==> LfEnded(files[i].bytes))
  }

  ghost predicate WeeksUpTo(files: seq<ArchiveFile>, week: int) {
    forall i :: 0 <= i < |files| ==> files[i].week <= week
  }

  function FileEvents<E>(bytes: Bytes, classify: Bytes -> LineKind<E>): seq<E> {
    Present(ParseLines(Lines(bytes), ParseWith(classify)))
  }

  /** The parsed list of each archive file, in listing order. */
  function ParsedFiles<E>(files: seq<ArchiveFile>, classify: Bytes -> LineKind<E>): seq<seq<E>> {
    seq(|files|, i requires 0 <= i < |files| => FileEvents(files[i].bytes, classify))
  }

  function ArchivedEvents<E>(files: seq<ArchiveFile>, classify: Bytes -> LineKind<E>): seq<E> {
    Concat(ParsedFiles(files, classify))
  }

  lemma {:induction false} OverlapExtends<T>(seen: seq<T>, f: seq<T>, start: nat, end: nat, lo: nat, hi: nat)
    requires start < end && |seen| < end && start < |seen| + |f|
    requires lo == if start > |seen| then start else |seen|
    requires hi == if end < |seen| + |f| then end else |seen| + |f|
    ensures Clip(seen + f, start, end) == Clip(seen, start, end) + f[lo - |seen|..hi - |seen|]
  {
    var c, d := Clip(seen + f, start, end), Clip(seen, start, end) + f[lo - |seen|..hi - |seen|];
    assert |c| == |d|;
    forall i | 0 <= i < |c| ensures c[i] == d[i] {}
  }

  lemma {:induction false} NoOverlapKeeps<T>(seen: seq<T>, f: seq<T>, start: nat, end: nat)
    requires start < end && (end <= |seen| || |seen| + |f| <= start)
    ensures Clip(seen + f, start, end) == Clip(seen, start, end)
  {
    var c, d := Clip(seen + f, start, end), Clip(seen, start, end);
    assert |c| == |d|;
    forall i | 0 <= i < |c| ensures c[i] == d[i] {}
  }

  lemma {:induction false} OverlapEnd<E>(parsed: seq<seq<E>>, i: nat, start: nat, end: nat)
    requires i <= |parsed| && start < end && (i == |parsed| || end <= |Concat(parsed[..i])|)
    ensures Clip(Concat(parsed[..i]), start, end) == Clip(Concat(parsed), start, end)
  {
    assert parsed[..i] + parsed[i..] == parsed;
    if i < |parsed| {
      ConcatAppend(parsed[..i], parsed[i..]);
      NoOverlapKeeps(Concat(parsed[..i]), Concat(parsed[i..]), start, end);
    } else {
      assert parsed[..i] == parsed;
    }
  }

  /** What a file that starts at event pos adds to the range. */
  function FileSlice<E>(fileEvents: seq<E>, pos: nat, start: nat, end: nat): seq<E>
    requires start < end
  {
    if pos < end && pos + |fileEvents| > start
    then
      var lo, hi := if start > pos then start else pos, if end < pos + |fileEvents| then end else pos + |fileEvents|;
      fileEvents[lo - pos..hi - pos]
    else []
  }

  lemma {:induction false} FileStep<E>(parsed: seq<seq<E>>, i: nat, start: nat, end: nat)
    requires i < |parsed| && start < end
    ensures |Concat(parsed[..i + 1])| == |Concat(parsed[..i])| + |parsed[i]|
    ensures Clip(Concat(parsed[..i + 1]), start, end) ==
            Clip(Concat(parsed[..i]), start, end) + FileSlice(parsed[i], |Concat(parsed[..i])|, start, end)
  {
    ConcatSnoc(parsed[..i], parsed[i]);
    assert parsed[..i] + [parsed[i]] == parsed[..i + 1];
    SliceStep(Concat(parsed[..i]), parsed[i], start, end);
  }

  lemma {:induction false} SliceStep<E>(before: seq<E>, file: seq<E>, start: nat, end: nat)
    requires start < end
    ensures Clip(before + file, start, end) == Clip(before, start, end) + FileSlice(file, |before|, start, end)
  {
    var pos, fileEnd := |before|, |before| + |file|;
    if pos < end && fileEnd > start {
      OverlapExtends(before, file, start, end, if start > pos then start else pos, if end < fileEnd then end else fileEnd);
    } else {
      NoOverlapKeeps(before, file, start, end);
    }
  }

  /** _load_archive_range: concatenate the overlapping sub-slices, file by file. */
  method LoadArchiveRange<E>(parsed: seq<seq<E>>, start: nat, end: nat) returns (events: seq<E>)
    ensures events == Clip(Concat(parsed), start, end)
  {
    events := [];
    if end <= start {
      return;
    }
    var pos, i := 0, 0;
    while i < |parsed|
      invariant 0 <= i <= |parsed|
      invariant pos == |Concat(parsed[..i])|
      invariant events == Clip(Concat(parsed[..i]), start, end)
    {
      FileStep(parsed, i, start, end);
      var part := TakeSlice(parsed[i], pos, start, end);
      events := events + part;
      pos, i := pos + |parsed[i]|, i + 1;
      if pos >= end {
        break;
      }
    }
    OverlapEnd(parsed, i, start, end);
  }

  /** The part of one file that lies in the range. */
  method TakeSlice<E>(fileEvents: seq<E>, pos: nat, start: nat, end: nat) returns (part: seq<E>)
    requires start < end
    ensures part == FileSlice(fileEvents, pos, start, end)
  {
    var fileEnd := pos + |fileEvents|;
    if pos < end && fileEnd > start {
      var lo, hi := if start > pos then start else pos, if end < fileEnd then end else fileEnd;
      return fileEvents[lo - pos..hi - pos];
    }
    return [];
  }

  /** open(archive_path, "a") within the listing sorted by week. */
  function AppendToWeek(files: seq<ArchiveFile>, week: int, bytes: Bytes): seq<ArchiveFile> {
    if files == [] || week < files[0].week then [ArchiveFile(week, bytes)] + files
    else if week == files[0].week then [ArchiveFile(week, files[0].bytes + bytes)] + files[1..]
    else [files[0]] + AppendToWeek(files[1..], week, bytes)
  }

  predicate LastWeekIs(files: seq<ArchiveFile>, week: int) {
    files != [] && files[|files| - 1].week == week
  }

  lemma {:induction false} AppendOpensWeek(files: seq<ArchiveFile>, week: int, bytes: Bytes)
    requires forall i :: 0 <= i < |files| ==> files[i].week < week
    ensures AppendToWeek(files, week, bytes) == files + [ArchiveFile(week, bytes)]
  {
    if files != [] {
      AppendOpensWeek(files[1..], week, bytes);
      assert files == [files[0]] + files[1..];
    }
  }

  lemma {:induction false} AppendExtendsWeek(older: seq<ArchiveFile>, last: ArchiveFile, bytes: Bytes)
    requires forall i :: 0 <= i < |older| ==> older[i].week < last.week
    ensures AppendToWeek(older + [last], last.week, bytes) ==
            older + [ArchiveFile(last.week, last.bytes + bytes)]
  {
    var files := older + [last];
    if older == [] {
      assert files == [last] && files[1..] == [];
    } else {
      AppendExtendsWeek(older[1..], last, bytes);
      assert files[1..] == older[1..] + [last];
      assert older == [older[0]] + older[1..];
    }
  }

  lemma {:induction false} FileEventsAppend<E>(a: Bytes, b: Bytes, classify: Bytes -> LineKind<E>)
    requires LfEnded(a)
    ensures FileEvents(a + b, classify) == FileEvents(a, classify) + FileEvents(b, classify)
  {
    LinesAppend(a, b);
    ParseLinesAppend(Lines(a), Lines(b), ParseWith(classify));
    PresentAppend(ParseLines(Lines(a), ParseWith(classify)), ParseLines(Lines(b), ParseWith(classify)));
  }

  lemma {:induction false} ArchivedEventsSnoc<E>(files: seq<ArchiveFile>, f: ArchiveFile, classify: Bytes -> LineKind<E>)
    ensures ArchivedEvents(files + [f], classify) ==
            ArchivedEvents(files, classify) + FileEvents(f.bytes, classify)
  {
    assert ParsedFiles(files + [f], classify) == ParsedFiles(files, classify) + [FileEvents(f.bytes, classify)];
    ConcatSnoc(ParsedFiles(files, classify), FileEvents(f.bytes, classify));
  }

  lemma {:induction false} ListingSnoc(older: seq<ArchiveFile>, f: ArchiveFile)
    requires ListingOk(older) && LfEnded(f.bytes) && forall i :: 0 <= i < |older| ==> older[i].week < f.week
    ensures ListingOk(older + [f]) && WeeksUpTo(older + [f], f.week)
  {
  }

  lemma {:induction false} ListingStaysSorted(files: seq<ArchiveFile>, week: int, bytes: Bytes)
    requires ListingOk(files) && LfEnded(bytes) && WeeksUpTo(files, week)
    ensures ListingOk(AppendToWeek(files, week, bytes)) && WeeksUpTo(AppendToWeek(files, week, bytes), week)
  {
    if LastWeekIs(files, week) {
      var older, last := files[..|files| - 1], files[|files| - 1];
      assert files == older + [last];
      AppendExtendsWeek(older, last, bytes);
      ListingSnoc(older, ArchiveFile(week, last.bytes + bytes));
    } else {
      AppendOpensWeek(files, week, bytes);
      ListingSnoc(files, ArchiveFile(week, bytes));
    }
  }

  /** A week no older than every file's puts the new events after all archived ones. */
  lemma {:induction false} AppendToWeekAtEnd<E>(files: seq<ArchiveFile>, week: int, bytes: Bytes,
                                                classify: Bytes -> LineKind<E>)
    requires ListingOk(files) && WeeksUpTo(files, week)
    ensures ArchivedEvents(AppendToWeek(files, week, bytes), classify) ==
            ArchivedEvents(files, classify) + FileEvents(bytes, classify)
  {
    if LastWeekIs(files, week) {
      var older, last := files[..|files| - 1], files[|files| - 1];
      assert files == older + [last];
      AppendExtendsWeek(older, last, bytes);
      FileEventsAppend(last.bytes, bytes, classify);
      ArchivedEventsSnoc(older, last, classify);
      ArchivedEventsSnoc(older, ArchiveFile(week, last.bytes + bytes), classify);
    } else {
      AppendOpensWeek(files, week, bytes);
      ArchivedEventsSnoc(files, ArchiveFile(week, bytes), classify);
    }
  }
}
