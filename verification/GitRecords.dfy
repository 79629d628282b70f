/**
 * git's NUL-terminated diff listings: the two parsers behind the diff manifest, what git prints
 * for a list of changes, and the round trip between them.
 */
module GitRecords {
  import opened Prelude
  import opened Decimals

  const NUL: char := 0 as char
  const TAB: char := 9 as char
  const DASH: string := [45 as char]

  /** A count is None for a binary file; oldPath is the source path of a rename or copy. */
  datatype Change = Change(added: Option<nat>, deleted: Option<nat>, letter: char, score: string,
                           path: string, oldPath: Option<string>)

  datatype Entry = Entry(additions: int, deletions: int, path: string, oldPath: Option<string>)

  /** Why a listing cannot be parsed: what the Python code raises. */
  datatype ParseError = TooFewFields | BadNumber | TokensRunOut | UnknownPath

  // ---------------------------------------------------------------------------
  // Splitting
  // ---------------------------------------------------------------------------

  /** output.split of a separator: never empty. */
  function Split(s: string, sep: char): (tokens: seq<string>)
    ensures tokens != []
  {
    if s == [] then [[]]
    else
      var rest := Split(s[1..], sep);
      if s[0] == sep then [[]] + rest else [[s[0]] + rest[0]] + rest[1..]
  }

  function Terminated(tokens: seq<string>): string {
    if tokens == [] then [] else tokens[0] + [NUL] + Terminated(tokens[1..])
  }

  lemma {:induction false} SplitFirst(token: string, rest: string)
    requires NUL !in token
    ensures Split(token + [NUL] + rest, NUL) == [token] + Split(rest, NUL)
    decreases |token|
  {
    var s := token + [NUL] + rest;
    if token == [] {
      assert s[1..] == rest;
    } else {
      SplitFirst(token[1..], rest);
      assert s[1..] == token[1..] + [NUL] + rest;
      assert ([token[1..]] + Split(rest, NUL))[1..] == Split(rest, NUL);
      assert [token[0]] + token[1..] == token;
    }
  }

  predicate NulFree(tokens: seq<string>) {
    forall t :: t in tokens ==> NUL !in t
  }

  /** Splitting terminated tokens gives them back, and an empty last one. */
  lemma {:induction false} SplitTerminated(tokens: seq<string>)
    requires NulFree(tokens)
    ensures Split(Terminated(tokens), NUL) == tokens + [[]]
  {
    if tokens != [] {
      SplitTerminated(tokens[1..]);
      SplitFirst(tokens[0], Terminated(tokens[1..]));
      assert tokens + [[]] == [tokens[0]] + (tokens[1..] + [[]]);
    }
  }

  /** The text before and after the first tab. */
  function Cut(s: string): Option<(string, string)> {
    if s == [] then None
    else if s[0] == TAB then Some(([], s[1..]))
    else
      var rest := Cut(s[1..]);
      if rest.None? then None else Some(([s[0]] + rest.value.0, rest.value.1))
  }

  /** token.split("\t", 2), which must give three fields. */
  function CutTwice(s: string): Option<(string, string, string)> {
    var first := Cut(s);
    if first.None? then None
    else
      var second := Cut(first.value.1);
      if second.None? then None else Some((first.value.0, second.value.0, second.value.1))
  }

  lemma {:induction false} CutAt(a: string, b: string)
    requires TAB !in a
    ensures Cut(a + [TAB] + b) == Some((a, b))
    decreases |a|
  {
    var s := a + [TAB] + b;
    if a == [] {
      assert s[1..] == b;
    } else {
      CutAt(a[1..], b);
      assert s[1..] == a[1..] + [TAB] + b;
      assert [a[0]] + a[1..] == a;
    }
  }

  // ---------------------------------------------------------------------------
  // Numbers
  // ---------------------------------------------------------------------------

  /** Python's int(): decimal digits, and whatever other spellings it takes. */
  type OtherInt = string -> Option<int>

  function IntOf(s: string, other: OtherInt): Option<int> {
    if s != [] && AllDigits(s) then Some(Value(s)) else other(s)
  }

  function CountOf(s: string, other: OtherInt): Option<int> {
    if s == DASH then Some(0) else IntOf(s, other)
  }

  // ---------------------------------------------------------------------------
  // --numstat -z
  // ---------------------------------------------------------------------------

  function Prepend<T>(first: T, rest: Result<seq<T>, ParseError>): Result<seq<T>, ParseError> {
    if rest.Ok? then Ok([first] + rest.value) else rest
  }

  /** The entries the tokens stand for, or the first error. */
  function NumstatOf(tokens: seq<string>, other: OtherInt): Result<seq<Entry>, ParseError>
    decreases |tokens|
  {
    if tokens == [] then Ok([])
    else if tokens[0] == [] then NumstatOf(tokens[1..], other)
    else
      var fields := CutTwice(tokens[0]);
      if fields.None? then Err(TooFewFields)
      else
        var (addedText, deletedText, path) := fields.value;
        if path == [] && |tokens| < 3 then Err(TokensRunOut)
        else
          var added, deleted := CountOf(addedText, other), CountOf(deletedText, other);
          if added.None? || deleted.None? then Err(BadNumber)
          else if path == [] then
            Prepend(Entry(added.value, deleted.value, tokens[2], Some(tokens[1])), NumstatOf(tokens[3..], other))
          else
            Prepend(Entry(added.value, deleted.value, path, None), NumstatOf(tokens[1..], other))
  }

  /** The entries parsed so far, in front of what the rest gives. */
  function After<T>(done: seq<T>, rest: Result<seq<T>, ParseError>): Result<seq<T>, ParseError> {
    if rest.Ok? then Ok(done + rest.value) else rest
  }

  lemma {:induction false} AfterPrepend<T>(done: seq<T>, first: T, rest: Result<seq<T>, ParseError>)
    ensures After(done, Prepend(first, rest)) == After(done + [first], rest)
  {
    if rest.Ok? {
      assert done + ([first] + rest.value) == (done + [first]) + rest.value;
    }
  }

  lemma {:induction false} AfterEnds<T>(done: seq<T>)
    ensures After(done, Ok([])) == Ok(done)
  {
    assert done + [] == done;
  }

  lemma {:induction false} AfterNothing<T>(r: Result<seq<T>, ParseError>)
    ensures After([], r) == r
  {
    if r.Ok? {
      assert [] + r.value == r.value;
    }
  }

  lemma {:induction false} Suffix<T>(s: seq<T>, i: nat, k: nat)
    requires i + k <= |s|
    ensures s[i..][k..] == s[i + k..]
    ensures i + k < |s| ==> s[i..][k] == s[i + k]
  {
  }

  method ParseNumstat(output: string, other: OtherInt) returns (r: Result<seq<Entry>, ParseError>)
    ensures r == NumstatOf(Split(output, NUL), other)
  {
    var tokens := Split(output, NUL);
    var entries: seq<Entry> := [];
    var i := 0;
    assert tokens[0..] == tokens;
    AfterNothing(NumstatOf(tokens, other));
    while i < |tokens|
      invariant i <= |tokens|
      invariant After(entries, NumstatOf(tokens[i..], other)) == NumstatOf(tokens, other)
      decreases |tokens| - i
    {
      var token := tokens[i];
      Suffix(tokens, i, 0);
      Suffix(tokens, i, 1);
      if i + 2 < |tokens| {
        Suffix(tokens, i, 2);
        Suffix(tokens, i, 3);
      }
      if token == [] {
        i := i + 1;
        continue;
      }
      var fields := CutTwice(token);
      if fields.None? { return Err(TooFewFields); }
      var path, oldPath, step := fields.value.2, None, 1;
      if path == [] {
        if i + 2 >= |tokens| { return Err(TokensRunOut); }
        oldPath, path, step := Some(tokens[i + 1]), tokens[i + 2], 3;
      }
      var additions, deletions := CountOf(fields.value.0, other), CountOf(fields.value.1, other);
      if additions.None? || deletions.None? { return Err(BadNumber); }
      var entry := Entry(additions.value, deletions.value, path, oldPath);
      AfterPrepend(entries, entry, NumstatOf(tokens[i + step..], other));
      entries := entries + [entry];
      i := i + step;
    }
    AfterEnds(entries);
    return Ok(entries);
  }

  // ---------------------------------------------------------------------------
  // --name-status -z
  // ---------------------------------------------------------------------------

  predicate IsMove(letter: char) {
    letter as int == 82 || letter as int == 67  // R or C
  }

  function StatusOf(tokens: seq<string>, known: map<string, char>): Result<map<string, char>, ParseError>
    decreases |tokens|
  {
    if tokens == [] then Ok(known)
    else if tokens[0] == [] then StatusOf(tokens[1..], known)
    else
      var letter := tokens[0][0];
      if IsMove(letter) then
        if |tokens| < 3 then Err(TokensRunOut) else StatusOf(tokens[3..], known[tokens[2] := letter])
      else
        if |tokens| < 2 then Err(TokensRunOut) else StatusOf(tokens[2..], known[tokens[1] := letter])
  }

  method ParseNameStatus(output: string) returns (r: Result<map<string, char>, ParseError>)
    ensures r == StatusOf(Split(output, NUL), map[])
  {
    var tokens := Split(output, NUL);
    var statuses: map<string, char> := map[];
    var i := 0;
    assert tokens[0..] == tokens;
    while i < |tokens|
      invariant i <= |tokens|
      invariant StatusOf(tokens[i..], statuses) == StatusOf(tokens, map[])
      decreases |tokens| - i
    {
      var status := tokens[i];
      Suffix(tokens, i, 0);
      Suffix(tokens, i, 1);
      if i + 1 < |tokens| { Suffix(tokens, i, 2); }
      if i + 2 < |tokens| { Suffix(tokens, i, 3); }
      if status == [] {
        i := i + 1;
      } else if IsMove(status[0]) {
        if i + 2 >= |tokens| { return Err(TokensRunOut); }
        statuses := statuses[tokens[i + 2] := status[0]];
        i := i + 3;
      } else {
        if i + 1 >= |tokens| { return Err(TokensRunOut); }
        statuses := statuses[tokens[i + 1] := status[0]];
        i := i + 2;
      }
    }
    return Ok(statuses);
  }

  // ---------------------------------------------------------------------------
  // What git prints
  // ---------------------------------------------------------------------------

  /** A change as git lists it: a rename or copy has both paths, and no text holds a NUL. */
  predicate Listed(c: Change) {
    && c.path != [] && NUL !in c.path && NUL !in c.score && c.letter != NUL
    && (c.oldPath.Some? <==> IsMove(c.letter))
    && (c.oldPath.Some? ==> NUL !in c.oldPath.value)
  }

  predicate AllListed(cs: seq<Change>) {
    forall c :: c in cs ==> Listed(c)
  }

  function CountText(count: Option<nat>): string {
    if count.None? then DASH else Decimal(count.value)
  }

  function NumstatTokens(c: Change): seq<string> {
    var counts := CountText(c.added) + [TAB] + CountText(c.deleted) + [TAB];
    if c.oldPath.None? then [counts + c.path] else [counts, c.oldPath.value, c.path]
  }

  function NameStatusTokens(c: Change): seq<string> {
    [[c.letter] + c.score] + (if c.oldPath.Some? then [c.oldPath.value] else []) + [c.path]
  }

  function AllNumstatTokens(cs: seq<Change>): seq<string> {
    if cs == [] then [] else NumstatTokens(cs[0]) + AllNumstatTokens(cs[1..])
  }

  function AllNameStatusTokens(cs: seq<Change>): seq<string> {
    if cs == [] then [] else NameStatusTokens(cs[0]) + AllNameStatusTokens(cs[1..])
  }

  function EntryOf(c: Change): Entry {
    Entry(if c.added.None? then 0 else c.added.value, if c.deleted.None? then 0 else c.deleted.value, c.path, c.oldPath)
  }

  function EntriesOf(cs: seq<Change>): seq<Entry> {
    if cs == [] then [] else [EntryOf(cs[0])] + EntriesOf(cs[1..])
  }

  /** The letter of each path; a later change of a path wins. */
  function LettersOf(cs: seq<Change>, known: map<string, char>): map<string, char> {
    if cs == [] then known else LettersOf(cs[1..], known[cs[0].path := cs[0].letter])
  }

  // ---------------------------------------------------------------------------
  // The round trips
  // ---------------------------------------------------------------------------

  lemma {:induction false} DigitsHaveNo(s: string)
    requires AllDigits(s)
    ensures TAB !in s && NUL !in s && s != DASH
  {
    assert !IsDigit(TAB) && !IsDigit(NUL) && !IsDigit(DASH[0]);
    if s != [] {
      assert s[0] in s && IsDigit(s[0]);
    }
  }

  lemma {:induction false} CountReads(count: Option<nat>, other: OtherInt)
    ensures TAB !in CountText(count) && NUL !in CountText(count) && CountText(count) != []
    ensures CountOf(CountText(count), other) == Some(if count.None? then 0 else count.value)
  {
    if count.Some? {
      DigitsHaveNo(Decimal(count.value));
      DecimalValue(count.value);
    }
  }

  lemma {:induction false} FieldsRead(a: string, b: string, c: string)
    requires TAB !in a && TAB !in b
    ensures CutTwice(a + [TAB] + b + [TAB] + c) == Some((a, b, c))
  {
    assert a + [TAB] + b + [TAB] + c == a + [TAB] + (b + [TAB] + c);
    CutAt(a, b + [TAB] + c);
    CutAt(b, c);
  }

  lemma {:induction false} NumstatReadsOne(c: Change, rest: seq<string>, other: OtherInt)
    requires Listed(c)
    ensures NumstatOf(NumstatTokens(c) + rest, other) == Prepend(EntryOf(c), NumstatOf(rest, other))
  {
    var a, d := CountText(c.added), CountText(c.deleted);
    var tokens := NumstatTokens(c) + rest;
    CountReads(c.added, other);
    CountReads(c.deleted, other);
    if c.oldPath.None? {
      FieldsRead(a, d, c.path);
      assert tokens[0] == a + [TAB] + d + [TAB] + c.path && tokens[1..] == rest;
    } else {
      FieldsRead(a, d, []);
      assert a + [TAB] + d + [TAB] + [] == a + [TAB] + d + [TAB];
      assert tokens[0] == a + [TAB] + d + [TAB] && tokens[1] == c.oldPath.value && tokens[2] == c.path && tokens[3..] == rest;
    }
  }

  lemma {:induction false} NumstatReads(cs: seq<Change>, other: OtherInt)
    requires AllListed(cs)
    ensures NumstatOf(AllNumstatTokens(cs) + [[]], other) == Ok(EntriesOf(cs))
  {
    if cs == [] {
      assert AllNumstatTokens(cs) + [[]] == [[]];
      var last: seq<string> := [[]];
      assert last[1..] == [];
    } else {
      assert cs[0] in cs;
      NumstatReads(cs[1..], other);
      NumstatReadsOne(cs[0], AllNumstatTokens(cs[1..]) + [[]], other);
      assert AllNumstatTokens(cs) + [[]] == NumstatTokens(cs[0]) + (AllNumstatTokens(cs[1..]) + [[]]);
    }
  }

  lemma {:induction false} StatusReadsOne(c: Change, rest: seq<string>, known: map<string, char>)
    requires Listed(c)
    ensures StatusOf(NameStatusTokens(c) + rest, known) == StatusOf(rest, known[c.path := c.letter])
  {
    var tokens := NameStatusTokens(c) + rest;
    assert tokens[0] == [c.letter] + c.score;
    if c.oldPath.Some? {
      assert tokens[2] == c.path && tokens[3..] == rest;
    } else {
      assert tokens[1] == c.path && tokens[2..] == rest;
    }
  }

  lemma {:induction false} StatusReads(cs: seq<Change>, known: map<string, char>)
    requires AllListed(cs)
    ensures StatusOf(AllNameStatusTokens(cs) + [[]], known) == Ok(LettersOf(cs, known))
    decreases |cs|
  {
    if cs == [] {
      assert AllNameStatusTokens(cs) + [[]] == [[]];
      var last: seq<string> := [[]];
      assert last[1..] == [];
    } else {
      assert cs[0] in cs;
      StatusReads(cs[1..], known[cs[0].path := cs[0].letter]);
      StatusReadsOne(cs[0], AllNameStatusTokens(cs[1..]) + [[]], known);
      assert AllNameStatusTokens(cs) + [[]] == NameStatusTokens(cs[0]) + (AllNameStatusTokens(cs[1..]) + [[]]);
    }
  }

  lemma {:induction false} PrependAfter<T>(first: T, done: seq<T>, rest: Result<seq<T>, ParseError>)
    ensures Prepend(first, After(done, rest)) == After([first] + done, rest)
  {
    if rest.Ok? {
      assert [first] + (done + rest.value) == ([first] + done) + rest.value;
    }
  }

  /** The entries before a record do not change what it leads to. */
  lemma {:induction false} NumstatGoesOn(cs: seq<Change>, rest: seq<string>, other: OtherInt)
    requires AllListed(cs)
    ensures NumstatOf(AllNumstatTokens(cs) + rest, other) == After(EntriesOf(cs), NumstatOf(rest, other))
  {
    if cs == [] {
      assert AllNumstatTokens(cs) + rest == rest;
      AfterNothing(NumstatOf(rest, other));
    } else {
      assert cs[0] in cs;
      NumstatGoesOn(cs[1..], rest, other);
      NumstatReadsOne(cs[0], AllNumstatTokens(cs[1..]) + rest, other);
      assert AllNumstatTokens(cs) + rest == NumstatTokens(cs[0]) + (AllNumstatTokens(cs[1..]) + rest);
      PrependAfter(EntryOf(cs[0]), EntriesOf(cs[1..]), NumstatOf(rest, other));
    }
  }

  lemma {:induction false} CutIs(s: string)
    ensures Cut(s).None? <==> TAB !in s
    ensures Cut(s).Some? ==> TAB !in Cut(s).value.0 && s == Cut(s).value.0 + [TAB] + Cut(s).value.1
  {
    if s != [] && s[0] != TAB {
      CutIs(s[1..]);
      assert s == [s[0]] + s[1..];
    }
  }

  lemma {:induction false} TwoTabs(s: string)
    ensures CutTwice(s).None? <==> multiset(s)[TAB] < 2
  {
    CutIs(s);
    if Cut(s).Some? {
      CutIs(Cut(s).value.1);
      assert multiset(s) == multiset(Cut(s).value.0) + multiset{TAB} + multiset(Cut(s).value.1);
    }
  }

  /** The first record that is not in order decides the error: one with fewer than two tabs. */
  lemma {:induction false} TooFewTabs(cs: seq<Change>, token: string, rest: seq<string>, other: OtherInt)
    requires AllListed(cs) && token != []
    ensures multiset(token)[TAB] < 2 ==> NumstatOf(AllNumstatTokens(cs) + ([token] + rest), other) == Err(TooFewFields)
  {
    NumstatGoesOn(cs, [token] + rest, other);
    TwoTabs(token);
  }

  /** A record with two tabs fails if it is a rename that lacks its paths, else if a count is no number. */
  lemma {:induction false} BadRecord(cs: seq<Change>, a: string, b: string, c: string, rest: seq<string>, other: OtherInt)
    requires AllListed(cs) && TAB !in a && TAB !in b
    ensures var r := NumstatOf(AllNumstatTokens(cs) + ([a + [TAB] + b + [TAB] + c] + rest), other);
            if c == [] && |rest| < 2 then r == Err(TokensRunOut)
            else (CountOf(a, other).None? || CountOf(b, other).None?) ==> r == Err(BadNumber)
  {
    var tokens := [a + [TAB] + b + [TAB] + c] + rest;
    FieldsRead(a, b, c);
    NumstatGoesOn(cs, tokens, other);
    assert tokens[0] != [];
  }

  /** A status without the path, or a rename's or copy's without the two paths, that it needs. */
  lemma {:induction false} BadStatus(cs: seq<Change>, status: string, rest: seq<string>, known: map<string, char>)
    requires AllListed(cs) && status != [] && |rest| < if status[0] in {'R', 'C'} then 2 else 1
    ensures StatusOf(AllNameStatusTokens(cs) + ([status] + rest), known) == Err(TokensRunOut)
    decreases |cs|
  {
    if cs == [] {
      assert AllNameStatusTokens(cs) + ([status] + rest) == [status] + rest;
    } else {
      assert cs[0] in cs;
      BadStatus(cs[1..], status, rest, known[cs[0].path := cs[0].letter]);
      StatusReadsOne(cs[0], AllNameStatusTokens(cs[1..]) + ([status] + rest), known);
      assert AllNameStatusTokens(cs) + ([status] + rest)
          == NameStatusTokens(cs[0]) + (AllNameStatusTokens(cs[1..]) + ([status] + rest));
    }
  }

  lemma {:induction false} TokensAreNulFree(cs: seq<Change>)
    requires AllListed(cs)
    ensures NulFree(AllNumstatTokens(cs)) && NulFree(AllNameStatusTokens(cs))
  {
    if cs != [] {
      assert cs[0] in cs;
      TokensAreNulFree(cs[1..]);
      var other: OtherInt := s => None;
      CountReads(cs[0].added, other);
      CountReads(cs[0].deleted, other);
    }
  }

  /** Both listings, printed and parsed, give the changes back: renames, copies and binary files included. */
  lemma {:induction false} ListingsRoundTrip(cs: seq<Change>, other: OtherInt)
    requires AllListed(cs)
    ensures NumstatOf(Split(Terminated(AllNumstatTokens(cs)), NUL), other) == Ok(EntriesOf(cs))
    ensures StatusOf(Split(Terminated(AllNameStatusTokens(cs)), NUL), map[]) == Ok(LettersOf(cs, map[]))
  {
    TokensAreNulFree(cs);
    SplitTerminated(AllNumstatTokens(cs));
    SplitTerminated(AllNameStatusTokens(cs));
    NumstatReads(cs, other);
    StatusReads(cs, map[]);
  }

  // ---------------------------------------------------------------------------
  // The manifest
  // ---------------------------------------------------------------------------

  datatype FileRow = FileRow(path: string, status: char, additions: int, deletions: int, oldPath: Option<string>)

  datatype Manifest = Manifest(files: seq<FileRow>, additions: int, deletions: int)

  lemma {:induction false} LettersGrow(cs: seq<Change>, known: map<string, char>, path: string)
    ensures path in LettersOf(cs, known) <==> path in known || exists c :: c in cs && c.path == path
    decreases |cs|
  {
    if cs != [] {
      LettersGrow(cs[1..], known[cs[0].path := cs[0].letter], path);
      assert cs == [cs[0]] + cs[1..];
    }
  }

  /** Every path of the numstat listing is a key of the other, even when a path comes twice. */
  lemma {:induction false} PathsAreKeys(cs: seq<Change>, i: nat)
    requires i < |cs|
    ensures |EntriesOf(cs)| == |cs| && EntriesOf(cs)[i].path in LettersOf(cs, map[])
  {
    EntriesAre(cs);
    LettersGrow(cs, map[], cs[i].path);
  }

  /** The letter kept for a path that no later change has. */
  lemma {:induction false} LettersKeep(cs: seq<Change>, known: map<string, char>, path: string)
    requires path in known && forall c :: c in cs ==> c.path != path
    ensures path in LettersOf(cs, known) && LettersOf(cs, known)[path] == known[path]
    decreases |cs|
  {
    if cs != [] {
      assert cs[0] in cs;
      LettersKeep(cs[1..], known[cs[0].path := cs[0].letter], path);
    }
  }

  predicate DistinctPaths(cs: seq<Change>) {
    forall i, j :: 0 <= i < j < |cs| ==> cs[i].path != cs[j].path
  }

  lemma {:induction false} LettersAt(cs: seq<Change>, known: map<string, char>, i: nat)
    requires DistinctPaths(cs) && i < |cs|
    ensures cs[i].path in LettersOf(cs, known) && LettersOf(cs, known)[cs[i].path] == cs[i].letter
    decreases |cs|
  {
    if i > 0 {
      LettersAt(cs[1..], known[cs[0].path := cs[0].letter], i - 1);
    } else {
      LettersKeep(cs[1..], known[cs[0].path := cs[0].letter], cs[0].path);
    }
  }

  function SumAdditions(entries: seq<Entry>): int {
    if entries == [] then 0 else SumAdditions(entries[..|entries| - 1]) + entries[|entries| - 1].additions
  }

  function SumDeletions(entries: seq<Entry>): int {
    if entries == [] then 0 else SumDeletions(entries[..|entries| - 1]) + entries[|entries| - 1].deletions
  }

  function RowOf(e: Entry, status: char): FileRow {
    FileRow(e.path, status, e.additions, e.deletions, e.oldPath)
  }

  /** The manifest of parsed listings: one row an entry, each with its path's letter. */
  predicate Joined(statuses: map<string, char>, entries: seq<Entry>, m: Manifest) {
    && |m.files| == |entries| && m.additions == SumAdditions(entries) && m.deletions == SumDeletions(entries)
    && forall i :: 0 <= i < |entries| ==>
         entries[i].path in statuses && m.files[i] == RowOf(entries[i], statuses[entries[i].path])
  }

  /** The join loop; a path without a letter is a KeyError. */
  method JoinRows(statuses: map<string, char>, entries: seq<Entry>) returns (r: Result<Manifest, ParseError>)
    ensures r.Ok? ==> Joined(statuses, entries, r.value)
    ensures r.Err? ==> r.error.UnknownPath?
    ensures r.Err? <==> exists e :: e in entries && e.path !in statuses
  {
    var rows, additions, deletions := [], 0, 0;
    assert entries[..0] == [];
    for i := 0 to |entries|
      invariant |rows| == i && additions == SumAdditions(entries[..i]) && deletions == SumDeletions(entries[..i])
      invariant forall j :: 0 <= j < i ==>
                  entries[j].path in statuses && rows[j] == RowOf(entries[j], statuses[entries[j].path])
    {
      var e := entries[i];
      assert entries[..i + 1][..i] == entries[..i];
      if e.path !in statuses {
        assert e in entries;
        return Err(UnknownPath);
      }
      rows := rows + [FileRow(e.path, statuses[e.path], e.additions, e.deletions, e.oldPath)];
      additions := additions + e.additions;
      deletions := deletions + e.deletions;
    }
    assert entries[..|entries|] == entries;
    return Ok(Manifest(rows, additions, deletions));
  }

  /** diff_files: the name-status listing is read first, and its error wins. */
  method DiffFiles(nameStatus: string, numstat: string, other: OtherInt) returns (r: Result<Manifest, ParseError>)
    ensures var statuses, entries := StatusOf(Split(nameStatus, NUL), map[]), NumstatOf(Split(numstat, NUL), other);
            if statuses.Err? then r == Err(statuses.error)
            else if entries.Err? then r == Err(entries.error)
            else if exists e :: e in entries.value && e.path !in statuses.value then r == Err(UnknownPath)
            else r.Ok? && Joined(statuses.value, entries.value, r.value)
  {
    var statuses := ParseNameStatus(nameStatus);
    if statuses.Err? { return Err(statuses.error); }
    var entries := ParseNumstat(numstat, other);
    if entries.Err? { return Err(entries.error); }
    r := JoinRows(statuses.value, entries.value);
  }

  lemma {:induction false} EntriesAre(cs: seq<Change>)
    ensures |EntriesOf(cs)| == |cs|
    ensures forall i :: 0 <= i < |cs| ==> EntriesOf(cs)[i] == EntryOf(cs[i])
  {
    if cs != [] {
      EntriesAre(cs[1..]);
      assert forall i :: 0 < i < |cs| ==> cs[i] == cs[1..][i - 1];
    }
  }

  /** The letter of an entry's path is the one its change has, so the join meets no unknown path. */
  lemma {:induction false} EveryPathKnown(cs: seq<Change>, i: nat)
    requires DistinctPaths(cs) && i < |cs|
    ensures |EntriesOf(cs)| == |cs| && EntriesOf(cs)[i] == EntryOf(cs[i])
    ensures EntriesOf(cs)[i].path in LettersOf(cs, map[]) && LettersOf(cs, map[])[EntriesOf(cs)[i].path] == cs[i].letter
  {
    EntriesAre(cs);
    LettersAt(cs, map[], i);
  }

  /** A binary file has no line counts. */
  function Lines(count: Option<nat>): nat {
    if count.Some? then count.value else 0
  }

  function AddedLines(cs: seq<Change>): nat {
    if cs == [] then 0 else Lines(cs[0].added) + AddedLines(cs[1..])
  }

  function DeletedLines(cs: seq<Change>): nat {
    if cs == [] then 0 else Lines(cs[0].deleted) + DeletedLines(cs[1..])
  }

  lemma {:induction false} SumsSplit(e: Entry, rest: seq<Entry>)
    ensures SumAdditions([e] + rest) == e.additions + SumAdditions(rest)
    ensures SumDeletions([e] + rest) == e.deletions + SumDeletions(rest)
  {
    var all := [e] + rest;
    if rest == [] {
      assert all[..0] == [];
    } else {
      SumsSplit(e, rest[..|rest| - 1]);
      assert all[..|all| - 1] == [e] + rest[..|rest| - 1];
    }
  }

  /** The sums over the parsed entries are the lines the changes added and deleted. */
  lemma {:induction false} TotalsAre(cs: seq<Change>)
    ensures SumAdditions(EntriesOf(cs)) == AddedLines(cs) && SumDeletions(EntriesOf(cs)) == DeletedLines(cs)
  {
    if cs != [] {
      TotalsAre(cs[1..]);
      SumsSplit(EntryOf(cs[0]), EntriesOf(cs[1..]));
    }
  }

  // ---------------------------------------------------------------------------
  // Two records as git writes them
  // ---------------------------------------------------------------------------

  /** "3", tab, "1", tab, "a": three lines added and one deleted in a. */
  lemma {:induction false} OneRecord(other: OtherInt)
    ensures NumstatOf(["3" + [TAB] + "1" + [TAB] + "a", ""], other) == Ok([Entry(3, 1, "a", None)])
  {
    ReadsDigits(other);
    var tokens := ["3" + [TAB] + "1" + [TAB] + "a", ""];
    FieldsRead("3", "1", "a");
    assert tokens[1..] == [""] && [""][1..] == [];
    assert NumstatOf(tokens[1..], other) == Ok([]);
    assert NumstatOf(tokens, other) == Prepend(Entry(3, 1, "a", None), Ok([]));
    assert [Entry(3, 1, "a", None)] + [] == [Entry(3, 1, "a", None)];
  }

  lemma {:induction false} ReadsDigits(other: OtherInt)
    ensures CountOf("3", other) == Some(3) && CountOf("1", other) == Some(1) && CountOf("-", other) == Some(0)
  {
    DecimalValue(3);
    DecimalValue(1);
    assert Decimal(3) == "3" && Decimal(1) == "1";
  }

  /** A binary file renamed from old to new: no path after the counts, then the two paths. */
  lemma {:induction false} OneRename(other: OtherInt)
    ensures NumstatOf(["-" + [TAB] + "-" + [TAB], "old", "new", ""], other) == Ok([Entry(0, 0, "new", Some("old"))])
  {
    ReadsDigits(other);
    var tokens := ["-" + [TAB] + "-" + [TAB], "old", "new", ""];
    FieldsRead("-", "-", "");
    assert tokens[0] == "-" + [TAB] + "-" + [TAB] + "";
    assert tokens[3..] == [""] && [""][1..] == [];
    assert NumstatOf(tokens[3..], other) == Ok([]);
    assert NumstatOf(tokens, other) == Prepend(Entry(0, 0, "new", Some("old")), Ok([]));
    assert [Entry(0, 0, "new", Some("old"))] + [] == [Entry(0, 0, "new", Some("old"))];
  }

  /** A status is the letter of the path after it; of a rename, of the second path. */
  lemma {:induction false} OneStatus()
    ensures StatusOf(["M", "a", ""], map[]) == Ok(map["a" := 'M'])
    ensures StatusOf(["R100", "old", "new", ""], map[]) == Ok(map["new" := 'R'])
  {
    assert [""][1..] == [];
    var one, two: map<string, char> := map["a" := 'M'], map["new" := 'R'];
    assert StatusOf([""], one) == Ok(one) && StatusOf([""], two) == Ok(two);
    assert ["M", "a", ""][2..] == [""] && ["R100", "old", "new", ""][3..] == [""];
    assert !IsMove('M') && IsMove('R') && "R100"[0] == 'R';
    assert StatusOf(["M", "a", ""], map[]) == StatusOf([""], map[]["a" := 'M']);
    assert StatusOf(["R100", "old", "new", ""], map[]) == StatusOf([""], map[]["new" := 'R']);
  }

  /** What git printed is what the manifest says, change by change. */
  method ManifestOfChanges(cs: seq<Change>, other: OtherInt) returns (m: Manifest)
    requires AllListed(cs) && DistinctPaths(cs)
    ensures |m.files| == |cs|
    ensures forall i :: 0 <= i < |cs| ==>
              && m.files[i].path == cs[i].path && m.files[i].oldPath == cs[i].oldPath && m.files[i].status == cs[i].letter
              && m.files[i].additions == Lines(cs[i].added) && m.files[i].deletions == Lines(cs[i].deleted)
    ensures m.additions == AddedLines(cs) && m.deletions == DeletedLines(cs)
  {
    ListingsRoundTrip(cs, other);
    EntriesAre(cs);
    TotalsAre(cs);
    ghost var entries, letters := EntriesOf(cs), LettersOf(cs, map[]);
    forall i | 0 <= i < |cs|
      ensures entries[i] == EntryOf(cs[i]) && entries[i].path in letters && letters[entries[i].path] == cs[i].letter
    {
      EveryPathKnown(cs, i);
    }
    var r := DiffFiles(Terminated(AllNameStatusTokens(cs)), Terminated(AllNumstatTokens(cs)), other);
    m := r.value;
  }
}
