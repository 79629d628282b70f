/**
 * The chat-event store as its callers see it: pages of globally indexed events over archive files
 * and live file, a warm events cache, single-line appends and weekly rotations.
 */
module ChatStore {
  import opened Prelude
  import opened PhysicalLines
  import opened LiveRange
  import opened Archive

  datatype Halves = Halves(files: seq<ArchiveFile>, content: Bytes)

  function LiveSlots<E>(content: Bytes, classify: Bytes -> LineKind<E>): seq<Option<E>> {
    ParseLines(Lines(content), ParseWith(classify))
  }

  /** Every global index: the archived events, then one slot per live physical line. */
  function GlobalSlots<E>(h: Halves, classify: Bytes -> LineKind<E>): seq<Option<E>> {
    Filled(ArchivedEvents(h.files, classify)) + LiveSlots(h.content, classify)
  }

  // ---------------------------------------------------------------------------
  // One rotation
  // ---------------------------------------------------------------------------

  function ArchivedRaw<E>(content: Bytes, classify: Bytes -> LineKind<E>, cutoff: int): seq<Bytes> {
    NonBlank(Lines(content)[..SplitPoint(Lines(content), classify, cutoff)], classify)
  }

  function KeptRaw<E>(content: Bytes, classify: Bytes -> LineKind<E>, cutoff: int): seq<Bytes> {
    Lines(content)[SplitPoint(Lines(content), classify, cutoff)..]
  }

  function RotateOnce<E>(h: Halves, classify: Bytes -> LineKind<E>, cutoff: int): Halves {
    var archived := ArchivedRaw(h.content, classify, cutoff);
    if archived == [] then h
    else Halves(AppendToWeek(h.files, IsoWeekIndex(cutoff), Unlines(archived)),
                Unlines(KeptRaw(h.content, classify, cutoff)))
  }

  lemma {:induction false} NonBlankIsSubsequence<E>(lines: seq<Bytes>, classify: Bytes -> LineKind<E>)
    ensures forall line :: line in NonBlank(lines, classify) ==> line in lines
  {
    if lines != [] {
      NonBlankIsSubsequence(lines[1..], classify);
    }
  }

  /** Of blank lines and old events, exactly the events survive into the archive. */
  lemma {:induction false} OldLinesParse<E>(lines: seq<Bytes>, classify: Bytes -> LineKind<E>, cutoff: int)
    requires forall i :: 0 <= i < |lines| ==> classify(lines[i]).Blank? || IsOld(classify(lines[i]), cutoff)
    ensures Present(ParseLines(NonBlank(lines, classify), ParseWith(classify))) ==
            Present(ParseLines(lines, ParseWith(classify)))
    ensures |Present(ParseLines(lines, ParseWith(classify)))| == |NonBlank(lines, classify)|
  {
    if lines != [] {
      OldLinesParse(lines[1..], classify, cutoff);
      assert ParseLines(lines, ParseWith(classify))[1..] == ParseLines(lines[1..], ParseWith(classify));
      var rest := NonBlank(lines[1..], classify);
      assert ([lines[0]] + rest)[1..] == rest;
      assert ParseLines([lines[0]] + rest, ParseWith(classify))[1..] == ParseLines(rest, ParseWith(classify));
      assert [] + rest == rest;
    }
  }

  lemma {:induction false} KeptReadsBack<E>(content: Bytes, classify: Bytes -> LineKind<E>, cutoff: int)
    ensures Lines(Unlines(KeptRaw(content, classify, cutoff))) == KeptRaw(content, classify, cutoff)
    ensures Lines(Unlines(ArchivedRaw(content, classify, cutoff))) == ArchivedRaw(content, classify, cutoff)
  {
    LinesAreTermFree(content);
    var prefix := Lines(content)[..SplitPoint(Lines(content), classify, cutoff)];
    NonBlankIsSubsequence(prefix, classify);
    UnlinesRoundTrip(KeptRaw(content, classify, cutoff));
    var archived := ArchivedRaw(content, classify, cutoff);
    forall k | 0 <= k < |archived| ensures TermFree(archived[k]) {
      assert archived[k] in prefix;
    }
    UnlinesRoundTrip(archived);
  }

  /** The slots of the live prefix a rotation takes away. */
  function TakenSlots<E>(content: Bytes, classify: Bytes -> LineKind<E>, cutoff: int): seq<Option<E>> {
    LiveSlots(content, classify)[..SplitPoint(Lines(content), classify, cutoff)]
  }

  function KeptSlots<E>(content: Bytes, classify: Bytes -> LineKind<E>, cutoff: int): seq<Option<E>> {
    LiveSlots(content, classify)[SplitPoint(Lines(content), classify, cutoff)..]
  }

  lemma {:induction false} SplitSlots<E>(content: Bytes, classify: Bytes -> LineKind<E>, cutoff: int)
    ensures var lines := Lines(content);
            var n := SplitPoint(lines, classify, cutoff);
            && TakenSlots(content, classify, cutoff) == ParseLines(lines[..n], ParseWith(classify))
            && KeptSlots(content, classify, cutoff) == ParseLines(lines[n..], ParseWith(classify))
  {
  }

  /** A rotation's effect on the two halves, slot by slot. */
  lemma {:induction false} RotatedSlots<E>(h: Halves, classify: Bytes -> LineKind<E>, cutoff: int)
    requires ListingOk(h.files) && WeeksUpTo(h.files, IsoWeekIndex(cutoff))
    requires ArchivedRaw(h.content, classify, cutoff) != []
    ensures var h' := RotateOnce(h, classify, cutoff);
            && ListingOk(h'.files) && WeeksUpTo(h'.files, IsoWeekIndex(cutoff))
            && ArchivedEvents(h'.files, classify) ==
               ArchivedEvents(h.files, classify) + Present(TakenSlots(h.content, classify, cutoff))
            && LiveSlots(h'.content, classify) == KeptSlots(h.content, classify, cutoff)
    ensures |Present(TakenSlots(h.content, classify, cutoff))| == |ArchivedRaw(h.content, classify, cutoff)|
  {
    var week, archived := IsoWeekIndex(cutoff), ArchivedRaw(h.content, classify, cutoff);
    var lines := Lines(h.content);
    var n := SplitPoint(lines, classify, cutoff);
    UnlinesEndsOnBoundary(archived);
    ListingStaysSorted(h.files, week, Unlines(archived));
    AppendToWeekAtEnd(h.files, week, Unlines(archived), classify);
    KeptReadsBack(h.content, classify, cutoff);
    OldLinesParse(lines[..n], classify, cutoff);
    SplitSlots(h.content, classify, cutoff);
  }

  lemma {:induction false} FilledPrefixHasNoHole<E>(a: seq<E>, p: seq<Option<E>>, k: seq<Option<E>>)
    ensures NoEventAfterHole(Filled(a) + p, k) == NoEventAfterHole(p, k)
    ensures Present(Filled(a) + p) == a + Present(p)
  {
    PresentFilled(a);
    PresentAppend(Filled(a), p);
    if a == [] {
      assert Filled(a) + p == p;
    } else {
      FilledPrefixHasNoHole(a[1..], p, k);
      assert (Filled(a) + p)[1..] == Filled(a[1..]) + p;
    }
  }

  lemma {:induction false} CompactBehindArchive<E(!new)>(a: seq<E>, p: seq<Option<E>>, k: seq<Option<E>>)
    ensures SamePages(Filled(a) + (p + k), Filled(a + Present(p)) + k) <==> NoEventAfterHole(p, k)
  {
    CompactPagesExact(Filled(a) + p, k);
    FilledPrefixHasNoHole(a, p, k);
    assert Filled(a) + (p + k) == Filled(a) + p + k;
  }

  /** No event of the live file follows a blank line that the rotation skips. */
  predicate CleanRotation<E>(h: Halves, classify: Bytes -> LineKind<E>, cutoff: int) {
    ArchivedRaw(h.content, classify, cutoff) == []
    || NoEventAfterHole(TakenSlots(h.content, classify, cutoff), KeptSlots(h.content, classify, cutoff))
  }

  /**
   * A rotation leaves every global-index page unchanged exactly when no event follows a blank
   * line it skips: a skipped blank consumed an index that the archive no longer counts.
   */
  lemma {:induction false} RotationPagesExact<E(!new)>(h: Halves, classify: Bytes -> LineKind<E>, cutoff: int)
    requires ListingOk(h.files) && WeeksUpTo(h.files, IsoWeekIndex(cutoff))
    ensures SamePages(GlobalSlots(h, classify), GlobalSlots(RotateOnce(h, classify, cutoff), classify)) <==>
            CleanRotation(h, classify, cutoff)
  {
    if ArchivedRaw(h.content, classify, cutoff) != [] {
      RotatedSlots(h, classify, cutoff);
      var p, k := TakenSlots(h.content, classify, cutoff), KeptSlots(h.content, classify, cutoff);
      CompactBehindArchive(ArchivedEvents(h.files, classify), p, k);
      assert LiveSlots(h.content, classify) == p + k;
    }
  }

  // ---------------------------------------------------------------------------
  // Any sequence of rotations
  // ---------------------------------------------------------------------------

  function RotateMany<E>(h: Halves, classify: Bytes -> LineKind<E>, cutoffs: seq<int>): Halves
    decreases |cutoffs|
  {
    if cutoffs == [] then h else RotateMany(RotateOnce(h, classify, cutoffs[0]), classify, cutoffs[1..])
  }

  ghost predicate NonDecreasing(cutoffs: seq<int>) {
    forall i, j :: 0 <= i < j < |cutoffs| ==> cutoffs[i] <= cutoffs[j]
  }

  /** Each rotation of the sequence is clean for the halves it finds. */
  predicate AllClean<E>(h: Halves, classify: Bytes -> LineKind<E>, cutoffs: seq<int>)
    decreases |cutoffs|
  {
    cutoffs == [] || (CleanRotation(h, classify, cutoffs[0]) && AllClean(RotateOnce(h, classify, cutoffs[0]), classify, cutoffs[1..]))
  }

  /** A rotation never moves the last event to a higher index, and to a lower one if it is not clean. */
  lemma {:induction false} RotationShifts<E>(h: Halves, classify: Bytes -> LineKind<E>, cutoff: int)
    requires ListingOk(h.files) && WeeksUpTo(h.files, IsoWeekIndex(cutoff))
    ensures var before, after := GlobalSlots(h, classify), GlobalSlots(RotateOnce(h, classify, cutoff), classify);
            && LastEvent(after) <= LastEvent(before)
            && (!CleanRotation(h, classify, cutoff) ==> LastEvent(after) < LastEvent(before))
    ensures var h' := RotateOnce(h, classify, cutoff);
            ListingOk(h'.files) && WeeksUpTo(h'.files, IsoWeekIndex(cutoff))
  {
    if ArchivedRaw(h.content, classify, cutoff) != [] {
      RotatedSlots(h, classify, cutoff);
      var p, k := TakenSlots(h.content, classify, cutoff), KeptSlots(h.content, classify, cutoff);
      assert LiveSlots(h.content, classify) == p + k;
      ShiftBehindArchive(ArchivedEvents(h.files, classify), p, k);
    }
  }

  lemma {:induction false} ShiftBehindArchive<E>(a: seq<E>, p: seq<Option<E>>, k: seq<Option<E>>)
    ensures LastEvent(Filled(a + Present(p)) + k) <= LastEvent(Filled(a) + (p + k))
    ensures !NoEventAfterHole(p, k) ==> LastEvent(Filled(a + Present(p)) + k) < LastEvent(Filled(a) + (p + k))
  {
    CompactShifts(Filled(a) + p, k);
    FilledPrefixHasNoHole(a, p, k);
    assert Filled(a) + (p + k) == Filled(a) + p + k;
  }

  lemma {:induction false} SamePagesLast<E(!new)>(s: seq<Option<E>>, t: seq<Option<E>>)
    requires SamePages(s, t)
    ensures LastEvent(s) <= LastEvent(t)
  {
    PagesAreSlots(s, t);
    LastEventIs(s);
    LastEventIs(t);
    if LastEvent(s) >= 0 {
      assert At(s, LastEvent(s)) == At(t, LastEvent(s));
    }
  }

  /** Over a sequence of rotations the last event only moves down, and moves when one is not clean. */
  lemma {:induction false} RotationsShift<E>(h: Halves, classify: Bytes -> LineKind<E>, cutoffs: seq<int>)
    requires ListingOk(h.files) && NonDecreasing(cutoffs)
    requires cutoffs != [] ==> WeeksUpTo(h.files, IsoWeekIndex(cutoffs[0]))
    ensures var before, after := GlobalSlots(h, classify), GlobalSlots(RotateMany(h, classify, cutoffs), classify);
            && LastEvent(after) <= LastEvent(before)
            && (!AllClean(h, classify, cutoffs) ==> LastEvent(after) < LastEvent(before))
    decreases |cutoffs|
  {
    if cutoffs != [] {
      RotationShifts(h, classify, cutoffs[0]);
      WeeksStay(RotateOnce(h, classify, cutoffs[0]).files, cutoffs);
      RotationsShift(RotateOnce(h, classify, cutoffs[0]), classify, cutoffs[1..]);
    }
  }

  lemma {:induction false} WeeksStay(files: seq<ArchiveFile>, cutoffs: seq<int>)
    requires cutoffs != [] && NonDecreasing(cutoffs) && WeeksUpTo(files, IsoWeekIndex(cutoffs[0]))
    ensures NonDecreasing(cutoffs[1..]) && (|cutoffs| > 1 ==> WeeksUpTo(files, IsoWeekIndex(cutoffs[1..][0])))
  {
    if |cutoffs| > 1 {
      assert cutoffs[0] <= cutoffs[1];
      assert IsoWeekIndex(cutoffs[0]) <= IsoWeekIndex(cutoffs[1]);
    }
  }

  /** Clean rotations at non-decreasing cutoffs never change what an index means. */
  lemma {:induction false} RotationsKeepPages<E(!new)>(h: Halves, classify: Bytes -> LineKind<E>, cutoffs: seq<int>)
    requires ListingOk(h.files) && NonDecreasing(cutoffs) && AllClean(h, classify, cutoffs)
    requires cutoffs != [] ==> WeeksUpTo(h.files, IsoWeekIndex(cutoffs[0]))
    ensures SamePages(GlobalSlots(h, classify), GlobalSlots(RotateMany(h, classify, cutoffs), classify))
    decreases |cutoffs|
  {
    if cutoffs != [] {
      var h' := RotateOnce(h, classify, cutoffs[0]);
      RotationPagesExact(h, classify, cutoffs[0]);
      RotationShifts(h, classify, cutoffs[0]);
      WeeksStay(h'.files, cutoffs);
      RotationsKeepPages(h', classify, cutoffs[1..]);
      SamePagesChain(GlobalSlots(h, classify), GlobalSlots(h', classify),
                     GlobalSlots(RotateMany(h, classify, cutoffs), classify));
    }
  }

  lemma {:induction false} SamePagesChain<E(!new)>(s: seq<Option<E>>, t: seq<Option<E>>, u: seq<Option<E>>)
    requires SamePages(s, t) && SamePages(t, u)
    ensures SamePages(s, u)
  {
    forall lo: nat, hi: nat ensures Page(s, lo, hi) == Page(u, lo, hi) {
      assert Page(s, lo, hi) == Page(t, lo, hi);
    }
  }

  /**
   * Any sequence of rotations at non-decreasing cutoffs leaves every global-index page unchanged
   * exactly when each of them is clean: what one of them shifts, no later one shifts back.
   */
  lemma {:induction false} RotationsExact<E(!new)>(h: Halves, classify: Bytes -> LineKind<E>, cutoffs: seq<int>)
    requires ListingOk(h.files) && NonDecreasing(cutoffs)
    requires cutoffs != [] ==> WeeksUpTo(h.files, IsoWeekIndex(cutoffs[0]))
    ensures SamePages(GlobalSlots(h, classify), GlobalSlots(RotateMany(h, classify, cutoffs), classify)) <==>
            AllClean(h, classify, cutoffs)
  {
    var before, after := GlobalSlots(h, classify), GlobalSlots(RotateMany(h, classify, cutoffs), classify);
    if AllClean(h, classify, cutoffs) {
      RotationsKeepPages(h, classify, cutoffs);
    } else {
      RotationsShift(h, classify, cutoffs);
      if SamePages(before, after) {
        SamePagesLast(before, after);
      }
    }
  }

  /** No rotation of the sequence takes a blank line away; blank lines it keeps do no harm. */
  ghost predicate TakesNoBlank<E>(h: Halves, classify: Bytes -> LineKind<E>, cutoffs: seq<int>)
    decreases |cutoffs|
  {
    cutoffs == [] ||
    (&& (forall line :: line in Lines(h.content)[..SplitPoint(Lines(h.content), classify, cutoffs[0])] ==> !classify(line).Blank?)
     && TakesNoBlank(RotateOnce(h, classify, cutoffs[0]), classify, cutoffs[1..]))
  }

  lemma {:induction false} NoBlankIsClean<E>(h: Halves, classify: Bytes -> LineKind<E>, cutoffs: seq<int>)
    requires TakesNoBlank(h, classify, cutoffs)
    ensures AllClean(h, classify, cutoffs)
    decreases |cutoffs|
  {
    if cutoffs != [] {
      var lines := Lines(h.content);
      var n := SplitPoint(lines, classify, cutoffs[0]);
      var p := TakenSlots(h.content, classify, cutoffs[0]);
      forall i | 0 <= i < |p| ensures p[i].Some? {
        assert lines[..n][i] in lines[..n];
      }
      DenseHasNoHole(p, KeptSlots(h.content, classify, cutoffs[0]));
      NoBlankIsClean(RotateOnce(h, classify, cutoffs[0]), classify, cutoffs[1..]);
    }
  }

  /** One rotation that takes no blank line away changes no page. */
  lemma {:induction false} RotateOnceKeeps<E(!new)>(h: Halves, classify: Bytes -> LineKind<E>, cutoff: int)
    requires ListingOk(h.files) && WeeksUpTo(h.files, IsoWeekIndex(cutoff))
    requires forall line :: line in Lines(h.content)[..SplitPoint(Lines(h.content), classify, cutoff)] ==> !classify(line).Blank?
    ensures SamePages(GlobalSlots(h, classify), GlobalSlots(RotateOnce(h, classify, cutoff), classify))
  {
    assert [cutoff][1..] == [];
    NoBlankIsClean(h, classify, [cutoff]);
    RotationPagesExact(h, classify, cutoff);
  }

  ghost predicate HasNoBlank<E>(content: Bytes, classify: Bytes -> LineKind<E>) {
    forall line :: line in Lines(content) ==> !classify(line).Blank?
  }

  /** In a log without blank lines no rotation ever meets one. */
  lemma {:induction false} NoBlankAtAll<E>(h: Halves, classify: Bytes -> LineKind<E>, cutoffs: seq<int>)
    requires HasNoBlank(h.content, classify)
    ensures TakesNoBlank(h, classify, cutoffs)
    decreases |cutoffs|
  {
    if cutoffs != [] {
      KeptReadsBack(h.content, classify, cutoffs[0]);
      NoBlankAtAll(RotateOnce(h, classify, cutoffs[0]), classify, cutoffs[1..]);
    }
  }

  lemma {:induction false} DenseHasNoHole<E>(p: seq<Option<E>>, k: seq<Option<E>>)
    requires forall i :: 0 <= i < |p| ==> p[i].Some?
    ensures NoEventAfterHole(p, k)
  {
    if p != [] {
      DenseHasNoHole(p[1..], k);
    }
  }

  // ---------------------------------------------------------------------------
  // The two contracts that fail, on concrete lines
  // ---------------------------------------------------------------------------

  /** A line kind by its first byte: none is blank, 'x' is malformed, any other an event of time 0. */
  function ByFirstByte(line: Bytes): LineKind<byte> {
    if line == [] then Blank else if line[0] == 120 then Malformed else Event(line[0], Some(0))
  }

  const BLANK_FIRST: Bytes := [LF, 97, LF, 98, LF]

  lemma {:induction false} BlankFirstLines()
    ensures Lines(BLANK_FIRST) == [[], [97], [98]]
    ensures LiveSlots(BLANK_FIRST, ByFirstByte) == [None, Some(97), Some(98)]
  {
    ThreeLines([], [97], [98]);
    assert BLANK_FIRST == [] + [LF] + ([97] + [LF] + ([98] + [LF]));
    assert ByFirstByte([]).Blank? && ByFirstByte([97]) == Event(97, Some(0)) && ByFirstByte([98]) == Event(98, Some(0));
    var lines: seq<Bytes> := [[], [97], [98]];
    assert ParseLines(lines, ParseWith(ByFirstByte)) == [None, Some(97), Some(98)];
  }

  lemma {:induction false} BlankFirstRotates()
    ensures ArchivedRaw(BLANK_FIRST, ByFirstByte, 1) == [[97], [98]]
    ensures SplitPoint(Lines(BLANK_FIRST), ByFirstByte, 1) == |Lines(BLANK_FIRST)| == 3
  {
    var lines: seq<Bytes> := [[], [97], [98]];
    BlankFirstLines();
    assert lines[1..] == [[97], [98]];
    BothEvents(lines[1..]);
    assert SplitPoint(lines, ByFirstByte, 1) == 3;
    assert lines[..3] == lines;
    assert NonBlank(lines, ByFirstByte) == NonBlank(lines[1..], ByFirstByte);
  }

  lemma {:induction false} BothEvents(lines: seq<Bytes>)
    requires lines == [[97], [98]]
    ensures NonBlank(lines, ByFirstByte) == lines && SplitPoint(lines, ByFirstByte, 1) == 2
  {
    assert lines[1..] == [[98]] && lines[1..][1..] == [];
    assert NonBlank(lines[1..], ByFirstByte) == [[98]] + NonBlank([], ByFirstByte) == [[98]];
    assert NonBlank(lines, ByFirstByte) == [[97]] + [[98]];
  }

  lemma {:induction false} BlankFirstSlots()
    ensures var h := Halves([], BLANK_FIRST);
            && GlobalSlots(h, ByFirstByte) == [None, Some(97), Some(98)]
            && GlobalSlots(RotateOnce(h, ByFirstByte, 1), ByFirstByte) == [Some(97), Some(98)]
  {
    var h := Halves([], BLANK_FIRST);
    var slots: seq<Option<byte>> := [None, Some(97), Some(98)];
    BlankFirstLines();
    BlankFirstRotates();
    assert ArchivedEvents<byte>([], ByFirstByte) == [] by { assert ParsedFiles<byte>([], ByFirstByte) == []; }
    RotatedSlots(h, ByFirstByte, 1);
    assert TakenSlots(h.content, ByFirstByte, 1) == slots && KeptSlots(h.content, ByFirstByte, 1) == [];
    TwoEvents(slots);
  }

  /** A blank line, then events a and b: archiving them moves b from index 2 to index 1. */
  lemma {:induction false} BlankLineShifts()
    ensures var h := Halves([], BLANK_FIRST);
            && Page(GlobalSlots(h, ByFirstByte), 1, 2) == [97]
            && Page(GlobalSlots(RotateOnce(h, ByFirstByte, 1), ByFirstByte), 1, 2) == [98]
  {
    BlankFirstSlots();
    OnePage<byte>([None, Some(97), Some(98)], 1, 97);
    OnePage<byte>([Some(97), Some(98)], 1, 98);
  }

  lemma {:induction false} OnePage<T>(slots: seq<Option<T>>, i: nat, x: T)
    requires i < |slots| && slots[i] == Some(x)
    ensures Page(slots, i, i + 1) == [x]
  {
    OnlyOne(x);
    assert Clip(slots, i, i + 1) == [Some(x)];
  }

  lemma {:induction false} TwoEvents(slots: seq<Option<byte>>)
    requires slots == [None, Some(97), Some(98)]
    ensures Present(slots) == [97, 98]
  {
    assert slots[1..] == [Some(97), Some(98)] && slots[1..][1..] == [Some(98)];
    OnlyOne<byte>(98);
    assert Present(slots[1..]) == [97] + [98];
  }

  lemma {:induction false} ThreeLines(a: Bytes, b: Bytes, c: Bytes)
    requires TermFree(a) && TermFree(b) && TermFree(c)
    ensures Lines(a + [LF] + (b + [LF] + (c + [LF]))) == [a, b, c]
  {
    WrittenLine(a);
    WrittenLine(b);
    WrittenLine(c);
    LinesAppend(b + [LF], c + [LF]);
    LinesAppend(a + [LF], b + [LF] + (c + [LF]));
  }

  lemma {:induction false} MalformedFirstSlots()
    ensures LiveSlots([120, LF, 97, LF], ByFirstByte) == [None, Some(97)]
  {
    WrittenLine([120]);
    WrittenLine([97]);
    LinesAppend([120] + [LF], [97] + [LF]);
    assert [120, LF, 97, LF] == ([120] + [LF]) + ([97] + [LF]);
    var lines: seq<Bytes> := [[120], [97]];
    assert Lines([120, LF, 97, LF]) == lines;
    assert ByFirstByte([120]).Malformed? && ByFirstByte([97]) == Event(97, Some(0));
    assert ParseLines(lines, ParseWith(ByFirstByte)) == [None, Some(97)];
  }

  /** A malformed line, then event a: the warm cache has a at index 0, the file at index 1. */
  lemma {:induction false} MalformedLineSkews()
    ensures var slots := LiveSlots([120, LF, 97, LF], ByFirstByte);
            && Clip(Present(slots), 0, 1) == [97] && Page(slots, 0, 1) == []
            && Clip(Present(slots), 1, 2) == [] && Page(slots, 1, 2) == [97]
  {
    MalformedFirstSlots();
    var slots: seq<Option<byte>> := [None, Some(97)];
    assert slots[1..] == [Some(97)];
    OnlyOne<byte>(97);
    assert Present(slots) == [] + Present(slots[1..]) == [97];
    var hole: seq<Option<byte>> := [None];
    assert Clip(slots, 0, 1) == hole && hole[1..] == [];
    OnePage(slots, 1, 97);
  }

  // ---------------------------------------------------------------------------
  // The store object
  // ---------------------------------------------------------------------------

  lemma {:induction false} PageInArchive<E>(a: seq<E>, live: seq<Option<E>>, start: nat, end: nat)
    requires end <= |a|
    ensures Page(Filled(a) + live, start, end) == Clip(a, start, end)
  {
    assert Clip(Filled(a) + live, start, end) == Filled(Clip(a, start, end));
    PresentFilled(Clip(a, start, end));
  }

  lemma {:induction false} PageInLive<E>(a: seq<E>, live: seq<Option<E>>, start: nat, end: nat)
    requires |a| <= start <= end
    ensures Page(Filled(a) + live, start, end) == Page(live, start - |a|, end - |a|)
  {
    assert Clip(Filled(a) + live, start, end) == Clip(live, start - |a|, end - |a|);
  }

  lemma {:induction false} PageAcross<E>(a: seq<E>, live: seq<Option<E>>, start: nat, end: nat)
    requires start < |a| < end
    ensures Page(Filled(a) + live, start, end) == Clip(a, start, |a|) + Page(live, 0, end - |a|)
  {
    var old_, new_ := Filled(Clip(a, start, |a|)), Clip(live, 0, end - |a|);
    var c := Clip(Filled(a) + live, start, end);
    assert |c| == |old_| + |new_|;
    forall i | 0 <= i < |c| ensures c[i] == (old_ + new_)[i] {}
    assert c == old_ + new_;
    PresentAppend(old_, new_);
    PresentFilled(Clip(a, start, |a|));
  }

  /** The three branches of load_chat_events_range, as one value. */
  function RangeOf<E>(h: Halves, classify: Bytes -> LineKind<E>, start: nat, end: nat): seq<E> {
    var archived := ArchivedEvents(h.files, classify);
    if end <= start then []
    else if end <= |archived| then Clip(archived, start, end)
    else if start >= |archived|
    then PageOf(h.content, start - |archived|, end - |archived|, ParseWith(classify))
    else Clip(archived, start, |archived|) + PageOf(h.content, 0, end - |archived|, ParseWith(classify))
  }

  /** The same with the live-only branch of an archived session reading `lag` lines late. */
  function LaggingRange<E>(h: Halves, classify: Bytes -> LineKind<E>, start: nat, end: nat, lag: nat): seq<E> {
    var offset := |ArchivedEvents(h.files, classify)|;
    if 0 < offset <= start < end then PageOf(h.content, start - offset + lag, end - offset + lag, ParseWith(classify))
    else RangeOf(h, classify, start, end)
  }

  lemma {:induction false} LaggingInLive<E>(h: Halves, classify: Bytes -> LineKind<E>, offset: nat, start: nat, end: nat, lag: nat)
    requires offset == |ArchivedEvents(h.files, classify)| && 0 < offset <= start < end
    ensures LaggingRange(h, classify, start, end, lag) ==
            PageOf(h.content, start - offset + lag, end - offset + lag, ParseWith(classify))
  {
  }

  lemma {:induction false} RangeInLive<E>(h: Halves, classify: Bytes -> LineKind<E>, offset: nat, start: nat, end: nat)
    requires offset == |ArchivedEvents(h.files, classify)| && offset <= start < end
    ensures RangeOf(h, classify, start, end) ==
            PageOf(h.content, start - offset, end - offset, ParseWith(classify))
  {
  }

  /** Only a range that lies wholly in the live part of an archived session is read late. */
  function ShiftOf(offset: nat, start: nat, end: nat, lag: nat): nat {
    if 0 < offset <= start < end then lag else 0
  }

  /** Every range, late or not, is a page of the global slots. */
  lemma {:induction false} LaggingIsGlobalPage<E>(h: Halves, classify: Bytes -> LineKind<E>, start: nat, end: nat, lag: nat)
    ensures var shift := ShiftOf(|ArchivedEvents(h.files, classify)|, start, end, lag);
            LaggingRange(h, classify, start, end, lag) == Page(GlobalSlots(h, classify), start + shift, end + shift)
  {
    var offset := |ArchivedEvents(h.files, classify)|;
    RangeIsGlobalPage(h, classify, start, end);
    if 0 < offset <= start < end {
      LaggingInLive(h, classify, offset, start, end, lag);
      PageInLive(ArchivedEvents(h.files, classify), LiveSlots(h.content, classify), start + lag, end + lag);
    }
  }

  /** Each branch answers the page of the global slots. */
  lemma {:induction false} RangeIsGlobalPage<E>(h: Halves, classify: Bytes -> LineKind<E>, start: nat, end: nat)
    ensures RangeOf(h, classify, start, end) == Page(GlobalSlots(h, classify), start, end)
  {
    var a, live := ArchivedEvents(h.files, classify), LiveSlots(h.content, classify);
    if start < end <= |a| {
      PageInArchive(a, live, start, end);
    } else if |a| <= start < end {
      PageInLive(a, live, start, end);
    } else if start < |a| < end {
      PageAcross(a, live, start, end);
    }
  }

  /** Written-back lines hold no CR, so the LF counter is right about them. */
  lemma {:induction false} UnlinesCountsRight(lines: seq<Bytes>)
    requires forall k :: 0 <= k < |lines| ==> TermFree(lines[k])
    ensures CountNdjsonLines(Unlines(lines)) == |Lines(Unlines(lines))| && MissedLines(Unlines(lines)) == 0
  {
    NoCrInUnlines(lines);
    NoLoneCr(Unlines(lines));
    CountAgreesIff(Unlines(lines));
  }

  lemma {:induction false} NoCrInUnlines(lines: seq<Bytes>)
    requires forall k :: 0 <= k < |lines| ==> TermFree(lines[k])
    ensures CR !in Unlines(lines)
  {
    if lines != [] {
      NoCrInUnlines(lines[1..]);
      assert TermFree(lines[0]);
    }
  }

  lemma {:induction false} NoLoneCr(s: Bytes)
    requires CR !in s
    ensures LoneCrCount(s) == 0
  {
    if s != [] {
      NoLoneCr(s[1..]);
    }
  }

  /** The bytes with their last line ended by an LF; the lines are the same. */
  function Ended(s: Bytes): Bytes {
    if LfEnded(s) then s else s + [LF]
  }

  lemma {:induction false} EndedReadsSame(s: Bytes)
    ensures Lines(Ended(s)) == Lines(s) && LfEnded(Ended(s))
  {
    if !EndsOnBoundary(s) {
      GluedLine(s, []);
      var lines := Lines(s);
      assert s + [] == s && lines[|lines| - 1] + [] == lines[|lines| - 1];
    } else if !LfEnded(s) {
      LinesAppendSeam(s, [LF]);
      assert Lines([LF])[1..] == [] by { assert [LF][1..] == []; }
    }
  }

  /** The lines after one more was written: a line of its own, or the rest of a torn one. */
  function WithLine(lines: seq<Bytes>, ended: bool, line: Bytes): seq<Bytes> {
    if ended || lines == [] then lines + [line] else lines[..|lines| - 1] + [lines[|lines| - 1] + line]
  }

  lemma {:induction false} AppendedLine(s: Bytes, line: Bytes)
    requires TermFree(line) && !SeamSplitsCrLf(s, line + [LF])
    ensures Lines(s + line + [LF]) == WithLine(Lines(s), EndsOnBoundary(s), line)
  {
    if EndsOnBoundary(s) {
      WrittenLine(line);
      LinesAppend(s, line + [LF]);
      assert s + (line + [LF]) == s + line + [LF];
    } else {
      GluedLine(s, line);
    }
  }

  /** One more line after bytes with the same lines is one more event of their parse. */
  lemma {:induction false} CacheAdvances<E>(s: Bytes, base: Bytes, line: Bytes, classify: Bytes -> LineKind<E>)
    requires Lines(base) == Lines(s) && EndsOnBoundary(base) && !SeamSplitsCrLf(base, line + [LF])
    requires TermFree(line) && classify(line).Event?
    ensures Present(LiveSlots(base + line + [LF], classify)) == Present(LiveSlots(s, classify)) + [classify(line).e]
  {
    AppendedLine(base, line);
    ParseLinesAppend(Lines(s), [line], ParseWith(classify));
    ghost var slot := ParseLines([line], ParseWith(classify));
    PresentAppend(LiveSlots(s, classify), slot);
    assert slot == [Some(classify(line).e)] && slot[1..] == [];
  }

  class ChatEventStore<E(!new)> {
    const live: LiveRangeMemo<E>
    const classify: Bytes -> LineKind<E>
    var archives: seq<ArchiveFile>
    var archiveOffset: nat           // metadata: events archived so far
    var eventsCache: Option<seq<E>>  // parsed live events, kept in step by SaveEvent
    ghost var cachedBytes: Bytes     // a content that the cached events are the parse of

    ghost predicate Valid()
      reads this, live, live.file
    {
      && live.Valid()
      && live.parse == ParseWith(classify)
      && ListingOk(archives)
      && archiveOffset == |ArchivedEvents(archives, classify)|
      && (eventsCache.Some? ==> eventsCache.value == Present(LiveSlots(cachedBytes, classify)))
    }

    constructor (memo: LiveRangeMemo<E>, kinds: Bytes -> LineKind<E>)
      requires memo.Valid() && memo.parse == ParseWith(kinds)
      ensures Valid() && live == memo && classify == kinds
      ensures archives == [] && archiveOffset == 0 && eventsCache.None?
    {
      live, classify := memo, kinds;
      archives, archiveOffset, eventsCache := [], 0, None;
      cachedBytes := [];
    }

    /** load_chat_events_sync: parse the live file once and keep the list. */
    method LoadEvents() returns (events: seq<E>)
      requires Valid()
      modifies this
      ensures Valid() && eventsCache == Some(events)
      ensures old(eventsCache).Some? ==> events == old(eventsCache.value) && cachedBytes == old(cachedBytes)
      ensures old(eventsCache).None? ==> cachedBytes == live.file.content
      ensures archives == old(archives) && archiveOffset == old(archiveOffset)
    {
      if eventsCache.Some? {
        return eventsCache.value;
      }
      events := Present(ParseLines(Lines(live.file.content), ParseWith(classify)));
      eventsCache := Some(events);
      cachedBytes := live.file.content;
    }

    /**
     * save_chat_event: append one line and advance the cache by the same event.  After a torn line
     * the file gets no new line: the event becomes part of the torn one, and only the cache has it.
     */
    method SaveEvent(line: Bytes, at: int)
      requires Valid()
      requires TermFree(line) && classify(line).Event? && live.file.MayAppend(line + [LF], at)
      modifies this`eventsCache, this`cachedBytes, live, live.file
      ensures Valid() && live.file.content == old(live.file.content) + line + [LF]
      ensures live.file.versions ==
              old(live.file.versions)[(at, |live.file.content|) := Version(old(live.file.inode), live.file.content)]
      ensures Lines(live.file.content) == WithLine(old(Lines(live.file.content)), old(EndsOnBoundary(live.file.content)), line)
      ensures eventsCache.Some? <==> old(eventsCache).Some?
      ensures eventsCache.Some? ==> eventsCache.value == old(eventsCache.value) + [classify(line).e]
      ensures old(cachedBytes == live.file.content && EndsOnBoundary(live.file.content)) ==> cachedBytes == live.file.content
    {
      ghost var before := live.file.content;
      live.AppendToFile(line + [LF], at);
      assert before + (line + [LF]) == before + line + [LF];
      AppendedLine(before, line);
      EndedReadsSame(cachedBytes);
      ghost var base := if cachedBytes == before && EndsOnBoundary(before) then before else Ended(cachedBytes);
      if eventsCache.Some? {
        CacheAdvances(cachedBytes, base, line, classify);
        eventsCache := Some(eventsCache.value + [classify(line).e]);
      }
      cachedBytes := base + line + [LF];
    }

    /** An unarchived session with a warm cache is paged by parsed-event index. */
    predicate ServesFromCache(start: nat, end: nat)
      reads this
    {
      start < end && archiveOffset == 0 && eventsCache.Some?
    }

    /** The live-only branch of an archived session: a page of the range memo. */
    method LoadArchivedSessionLive(start: nat, end: nat, races: Races)
      returns (events: seq<E>, ghost snapshot: Bytes, ghost lag: nat)
      requires Valid() && 0 < archiveOffset <= start < end
      modifies live, live.file
      ensures Valid() && old(live.file.content) <= snapshot <= live.file.content
      ensures races == NO_RACES ==> unchanged(live.file)
      ensures lag <= MissedLines(snapshot)
      ensures events == LaggingRange(Halves(archives, snapshot), classify, start, end, lag)
    {
      events, snapshot, lag := live.LoadPage(start - archiveOffset, end - archiveOffset, races);
      LaggingInLive(Halves(archives, snapshot), classify, archiveOffset, start, end, lag);
    }

    /** The live-only branch of an unarchived session: the warm cache, or the file's lines. */
    method LoadUnarchived(start: nat, end: nat) returns (events: seq<E>)
      requires Valid() && archiveOffset == 0 && start < end
      ensures eventsCache.Some? ==> events == Clip(Present(LiveSlots(cachedBytes, classify)), start, end)
      ensures eventsCache.None? ==> events == RangeOf(Halves(archives, live.file.content), classify, start, end)
    {
      if eventsCache.Some? {
        events := Clip(eventsCache.value, start, end);
      } else {
        events := PageOf(live.file.content, start, end, ParseWith(classify));
        RangeInLive(Halves(archives, live.file.content), classify, 0, start, end);
      }
    }

    /** The straddling branch of load_chat_events_range: a live page from line 0 never lags. */
    method LoadBothHalves(start: nat, end: nat, races: Races)
      returns (events: seq<E>, ghost snapshot: Bytes)
      requires Valid() && start < archiveOffset < end
      modifies live, live.file
      ensures Valid() && old(live.file.content) <= snapshot <= live.file.content
      ensures races == NO_RACES ==> unchanged(live.file)
      ensures events == RangeOf(Halves(archives, snapshot), classify, start, end)
    {
      var older := LoadArchiveRange(ParsedFiles(archives, classify), start, archiveOffset);
      var newer;
      ghost var lag;
      newer, snapshot, lag := live.LoadPage(0, end - archiveOffset, races);
      events := older + newer;
    }

    /** load_chat_events_range over both halves, for every content of the live file. */
    method LoadRange(start: nat, end: nat, races: Races)
      returns (events: seq<E>, hasMore: bool, ghost snapshot: Bytes, ghost lag: nat)
      requires Valid()
      modifies live, live.file
      ensures Valid()
      ensures hasMore == (start > 0)
      ensures old(live.file.content) <= snapshot <= live.file.content
      ensures races == NO_RACES ==> unchanged(live.file)
      ensures ServesFromCache(start, end) ==>
                events == Clip(Present(LiveSlots(cachedBytes, classify)), start, end)
      ensures !ServesFromCache(start, end) ==>
                events == LaggingRange(Halves(archives, snapshot), classify, start, end, lag)
      ensures lag <= MissedLines(snapshot)
    {
      snapshot, lag := live.file.content, 0;
      hasMore := start > 0;
      if end <= start {
        return [], hasMore, snapshot, 0;
      }
      if end <= archiveOffset {
        events := LoadArchiveRange(ParsedFiles(archives, classify), start, end);
      } else if start >= archiveOffset {
        if archiveOffset > 0 {
          events, snapshot, lag := LoadArchivedSessionLive(start, end, races);
        } else {
          events := LoadUnarchived(start, end);
        }
      } else {
        events, snapshot := LoadBothHalves(start, end, races);
      }
    }

    /**
     * archive_old_chat_events_sync with its caller's offset update: the head moves to the
     * cutoff's weekly file, the rest is republished under a new inode and the cache is dropped.
     */
    method Rotate(cutoff: int, at: int, ino: int) returns (eventsArchived: nat)
      requires Valid() && WeeksUpTo(archives, IsoWeekIndex(cutoff))
      requires forall sig :: sig in live.file.versions ==> sig.0 != at && live.file.versions[sig].inode != ino
      modifies this, live, live.file
      ensures Valid() && WeeksUpTo(archives, IsoWeekIndex(cutoff))
      ensures Halves(archives, live.file.content) ==
              RotateOnce(old(Halves(archives, live.file.content)), classify, cutoff)
      ensures eventsArchived == |ArchivedRaw(old(live.file.content), classify, cutoff)|
      ensures archiveOffset == old(archiveOffset) + eventsArchived
      ensures eventsArchived > 0 ==>
                && eventsCache.None? && live.file.inode == ino
                && live.file.versions == old(live.file.versions)[(at, |live.file.content|) := Version(ino, live.file.content)]
      ensures eventsArchived == 0 ==>
                eventsCache == old(eventsCache) && cachedBytes == old(cachedBytes) && unchanged(live.file)
    {
      var archived, kept := SplitLines(Lines(live.file.content), classify, cutoff);
      if archived == [] {
        return 0;
      }
      MoveHead(archived, kept, cutoff, at, ino);
      return |archived|;
    }

    /** Append the head to the weekly archive file, republish the rest, and drop the cache. */
    method MoveHead(archived: seq<Bytes>, kept: seq<Bytes>, cutoff: int, at: int, ino: int)
      requires Valid() && WeeksUpTo(archives, IsoWeekIndex(cutoff))
      requires forall sig :: sig in live.file.versions ==> sig.0 != at && live.file.versions[sig].inode != ino
      requires archived == ArchivedRaw(live.file.content, classify, cutoff) && archived != []
      requires kept == KeptRaw(live.file.content, classify, cutoff)
      modifies this, live, live.file
      ensures Valid() && WeeksUpTo(archives, IsoWeekIndex(cutoff))
      ensures Halves(archives, live.file.content) ==
              RotateOnce(old(Halves(archives, live.file.content)), classify, cutoff)
      ensures archiveOffset == old(archiveOffset) + |archived| && eventsCache.None? && live.file.inode == ino
      ensures live.file.versions == old(live.file.versions)[(at, |live.file.content|) := Version(ino, live.file.content)]
    {
      RotatedSlots(Halves(archives, live.file.content), classify, cutoff);
      archives := AppendToWeek(archives, IsoWeekIndex(cutoff), Unlines(archived));
      live.RewriteFile(Unlines(kept), at, ino);
      archiveOffset := archiveOffset + |archived|;
      eventsCache := None;
    }
  }
}
