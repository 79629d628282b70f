/**
 * The search route's row renderer: static runs of a row are rendered once and kept, and each
 * request splices the derived values between them.  The bytes must be those of rendering the row
 * with the derived values assigned into it.
 */
module RowSplice {
  import opened Prelude
  import opened Decimals

  datatype Value =
    | Null
    | Bool(b: bool)
    | Int(i: int)
    | Str(s: string)
    | Other(rendered: string)  // a list, an object or a float, as json.dumps renders it

  /** A row in key order, each key once. */
  type Row = seq<(string, Value)>

  // ---------------------------------------------------------------------------
  // json.dumps
  // ---------------------------------------------------------------------------

  const QUOTE: char := 34 as char
  const BACKSLASH: char := 92 as char
  const COMMA: string := [44 as char]
  const COLON: string := [58 as char]

  /** What ensure_ascii writes for a character it cannot write as it is. */
  type Escapes = char -> string

  /** A space to tilde, neither a quote nor a backslash: written as it is. */
  predicate Plain(c: char) {
    32 <= c as int <= 126 && c != QUOTE && c != BACKSLASH
  }

  predicate AllPlain(s: string) {
    s == [] || (AllPlain(s[..|s| - 1]) && Plain(s[|s| - 1]))
  }

  function Escape(esc: Escapes, s: string): string {
    if s == [] then []
    else
      var c := s[|s| - 1];
      Escape(esc, s[..|s| - 1]) + if Plain(c) then [c] else esc(c)
  }

  function Quoted(s: string): string {
    [QUOTE] + s + [QUOTE]
  }

  function IntText(i: int): string {
    if i < 0 then [45 as char] + Decimal(-i) else Decimal(i)
  }

  function Dump(esc: Escapes, v: Value): string {
    match v
    case Null => "null"
    case Bool(b) => if b then "true" else "false"
    case Int(i) => IntText(i)
    case Str(s) => Quoted(Escape(esc, s))
    case Other(rendered) => rendered
  }

  function Join(parts: seq<string>): string {
    if parts == [] then []
    else if |parts| == 1 then parts[0]
    else Join(parts[..|parts| - 1]) + COMMA + parts[|parts| - 1]
  }

  function Member(esc: Escapes, key: string, v: Value): string {
    Quoted(Escape(esc, key)) + COLON + Dump(esc, v)
  }

  function Members(esc: Escapes, row: Row): seq<string> {
    seq(|row|, i requires 0 <= i < |row| => Member(esc, row[i].0, row[i].1))
  }

  /** The members of a rendered object, without its braces. */
  function Inside(esc: Escapes, row: Row): string {
    Join(Members(esc, row))
  }

  lemma {:induction false} JoinAppend(a: seq<string>, b: seq<string>)
    requires a != [] && b != []
    ensures Join(a + b) == Join(a) + COMMA + Join(b)
    decreases |b|
  {
    var n := |b| - 1;
    assert (a + b)[..|a + b| - 1] == a + b[..n];
    if n == 0 {
      assert a + b[..0] == a;
    } else {
      JoinAppend(a, b[..n]);
    }
  }

  // ---------------------------------------------------------------------------
  // Scalars
  // ---------------------------------------------------------------------------

  predicate AllAscii(s: string) {
    forall i :: 0 <= i < |s| ==> s[i] as int < 128
  }

  /** _json_scalar_bytes; None when it raises. */
  function ScalarBytes(v: Value): Option<string> {
    match v
    case Null => Some("null")
    case Bool(b) => Some(if b then "true" else "false")
    case Int(i) => Some(IntText(i))
    case Str(s) => if AllAscii(s) then Some(Quoted(s)) else None
    case Other(_) => None
  }

  /** An escape is longer than the character it stands for. */
  predicate LongEscapes(esc: Escapes) {
    forall c :: !Plain(c) ==> |esc(c)| > 1
  }

  lemma {:induction false} EscapeLength(esc: Escapes, s: string)
    requires LongEscapes(esc)
    ensures |Escape(esc, s)| >= |s|
    ensures if AllPlain(s) then Escape(esc, s) == s else |Escape(esc, s)| > |s|
  {
    if s != [] {
      EscapeLength(esc, s[..|s| - 1]);
    }
  }

  lemma {:induction false} PlainIsAscii(s: string)
    requires AllPlain(s)
    ensures AllAscii(s)
  {
    if s != [] {
      PlainIsAscii(s[..|s| - 1]);
      forall i | 0 <= i < |s| ensures s[i] as int < 128 {
        assert i < |s| - 1 ==> s[..|s| - 1][i] == s[i];
      }
    }
  }

  /** The scalar form renders a value as json.dumps does exactly for None, booleans, integers and plain strings. */
  lemma {:induction false} ScalarExact(esc: Escapes, v: Value)
    requires LongEscapes(esc)
    ensures ScalarBytes(v) == Some(Dump(esc, v)) <==> !v.Other? && (v.Str? ==> AllPlain(v.s))
  {
    if v.Str? {
      EscapeLength(esc, v.s);
      assert |Quoted(v.s)| == |v.s| + 2 && |Dump(esc, v)| == |Escape(esc, v.s)| + 2;
      if AllPlain(v.s) {
        PlainIsAscii(v.s);
      }
    }
  }

  // ---------------------------------------------------------------------------
  // Overlaying the derived values
  // ---------------------------------------------------------------------------

  predicate HasKey(row: Row, key: string) {
    row != [] && (row[|row| - 1].0 == key || HasKey(row[..|row| - 1], key))
  }

  /** row[key] = value on a dict: in place when the key is there, else at the end. */
  function Assign(row: Row, key: string, v: Value): Row {
    if HasKey(row, key) then Replace(row, key, v) else row + [(key, v)]
  }

  function Replace(row: Row, key: string, v: Value): Row {
    if row == [] then []
    else
      var (k, w) := row[|row| - 1];
      Replace(row[..|row| - 1], key, v) + [(k, if k == key then v else w)]
  }

  /** The derived values, assigned one by one. */
  function Overlay(row: Row, derived: Row): Row {
    if derived == [] then row
    else
      var (key, v) := derived[|derived| - 1];
      Assign(Overlay(row, derived[..|derived| - 1]), key, v)
  }

  /** The value of a key, where the key is present. */
  function Lookup(row: Row, key: string): Value {
    if row == [] then Null
    else if row[|row| - 1].0 == key then row[|row| - 1].1
    else Lookup(row[..|row| - 1], key)
  }

  /** The row with each derived key's value in its place. */
  function Placed(row: Row, derived: Row): Row {
    if row == [] then []
    else
      var (k, w) := row[|row| - 1];
      Placed(row[..|row| - 1], derived) + [(k, if HasKey(derived, k) then Lookup(derived, k) else w)]
  }

  lemma {:induction false} ReplaceKeeps(row: Row, key: string, v: Value, other: string)
    ensures HasKey(Replace(row, key, v), other) <==> HasKey(row, other)
  {
    if row != [] {
      ReplaceKeeps(row[..|row| - 1], key, v, other);
      assert Replace(row, key, v)[..|Replace(row, key, v)| - 1] == Replace(row[..|row| - 1], key, v);
    }
  }

  lemma {:induction false} PlacedKeys(row: Row, derived: Row, key: string)
    ensures HasKey(Placed(row, derived), key) <==> HasKey(row, key)
  {
    if row != [] {
      PlacedKeys(row[..|row| - 1], derived, key);
      assert Placed(row, derived)[..|Placed(row, derived)| - 1] == Placed(row[..|row| - 1], derived);
    }
  }

  lemma {:induction false} PlacedSnoc(row: Row, derived: Row, key: string, v: Value)
    ensures Placed(row, derived + [(key, v)]) == Replace(Placed(row, derived), key, v)
  {
    if row != [] {
      PlacedSnoc(row[..|row| - 1], derived, key, v);
      assert (derived + [(key, v)])[..|derived|] == derived;
      assert Placed(row, derived)[..|Placed(row, derived)| - 1] == Placed(row[..|row| - 1], derived);
    }
  }

  predicate AllIn(derived: Row, row: Row) {
    derived == [] || (AllIn(derived[..|derived| - 1], row) && HasKey(row, derived[|derived| - 1].0))
  }

  lemma {:induction false} PlacedNothing(row: Row)
    ensures Placed(row, []) == row
  {
    if row != [] {
      PlacedNothing(row[..|row| - 1]);
      assert HasKey([], row[|row| - 1].0) == false;
      assert row == row[..|row| - 1] + [(row[|row| - 1].0, row[|row| - 1].1)];
    }
  }

  /** When the model declares every derived key, the assignments keep the row's order. */
  lemma {:induction false} OverlayIsPlaced(row: Row, derived: Row)
    requires AllIn(derived, row)
    ensures Overlay(row, derived) == Placed(row, derived)
  {
    if derived == [] {
      PlacedNothing(row);
    } else {
      var n := |derived| - 1;
      OverlayIsPlaced(row, derived[..n]);
      PlacedKeys(row, derived[..n], derived[n].0);
      PlacedSnoc(row, derived[..n], derived[n].0, derived[n].1);
      assert derived == derived[..n] + [(derived[n].0, derived[n].1)];
    }
  }

  // ---------------------------------------------------------------------------
  // Segments
  // ---------------------------------------------------------------------------

  datatype Segment = Static(text: string) | Derived(key: string)

  function Flush(esc: Escapes, run: Row): seq<Segment> {
    if run == [] then [] else [Static(Inside(esc, run))]
  }

  /** The segments of the rest of a row, with the static run that is still open. */
  function Segments(esc: Escapes, keys: set<string>, row: Row, run: Row): seq<Segment>
    decreases |row|
  {
    if row == [] then Flush(esc, run)
    else if row[0].0 in keys then Flush(esc, run) + [Derived(row[0].0)] + Segments(esc, keys, row[1..], [])
    else Segments(esc, keys, row[1..], run + [row[0]])
  }

  method StaticSegments(esc: Escapes, keys: set<string>, row: Row) returns (segments: seq<Segment>)
    ensures segments == Segments(esc, keys, row, [])
  {
    segments := [];
    var run: Row := [];
    assert row[0..] == row;
    for i := 0 to |row|
      invariant segments + Segments(esc, keys, row[i..], run) == Segments(esc, keys, row, [])
    {
      assert row[i..][0] == row[i] && row[i..][1..] == row[i + 1..];
      if row[i].0 in keys {
        Assoc4(segments, Flush(esc, run), [Derived(row[i].0)], Segments(esc, keys, row[i + 1..], []));
        if run != [] {
          segments := segments + [Static(Inside(esc, run))];
          run := [];
        }
        segments := segments + [Derived(row[i].0)];
      } else {
        run := run + [row[i]];
      }
    }
    if run != [] {
      segments := segments + [Static(Inside(esc, run))];
    }
  }

  // ---------------------------------------------------------------------------
  // Splicing
  // ---------------------------------------------------------------------------

  /** A segment with the request's values; None when a value cannot be rendered. */
  function Render(values: Row, segment: Segment): Option<string> {
    match segment
    case Static(text) => Some(text)
    case Derived(key) =>
      var scalar := ScalarBytes(Lookup(values, key));
      if scalar.None? then None else Some(Quoted(key) + COLON + scalar.value)
  }

  function RenderAll(values: Row, segments: seq<Segment>): Option<seq<string>> {
    if segments == [] then Some([])
    else
      var first, rest := Render(values, segments[0]), RenderAll(values, segments[1..]);
      if first.None? || rest.None? then None else Some([first.value] + rest.value)
  }

  /** The parts rendered so far, in front of those of the rest. */
  function Ahead(done: seq<string>, rest: Option<seq<string>>): Option<seq<string>> {
    if rest.None? then None else Some(done + rest.value)
  }

  lemma {:induction false} AheadStep(values: Row, segments: seq<Segment>, i: nat, done: seq<string>)
    requires i < |segments|
    ensures var first := Render(values, segments[i]);
            Ahead(done, RenderAll(values, segments[i..])) ==
            if first.None? then None else Ahead(done + [first.value], RenderAll(values, segments[i + 1..]))
  {
    assert segments[i..][0] == segments[i] && segments[i..][1..] == segments[i + 1..];
    var first, rest := Render(values, segments[i]), RenderAll(values, segments[i + 1..]);
    if first.Some? && rest.Some? {
      assert done + ([first.value] + rest.value) == done + [first.value] + rest.value;
    }
  }

  lemma {:induction false} AheadEnds(values: Row, segments: seq<Segment>, done: seq<string>)
    ensures Ahead([], RenderAll(values, segments)) == RenderAll(values, segments)
    ensures Ahead(done, RenderAll(values, [])) == Some(done)
  {
    assert done + [] == done;
    if RenderAll(values, segments).Some? {
      assert [] + RenderAll(values, segments).value == RenderAll(values, segments).value;
    }
  }

  function Braced(inside: string): string {
    "{" + inside + "}"
  }

  method SpliceRow(segments: seq<Segment>, values: Row) returns (r: Option<string>)
    ensures var parts := RenderAll(values, segments);
            r == if parts.None? then None else Some(Braced(Join(parts.value)))
  {
    var rendered: seq<string> := [];
    assert segments[0..] == segments && segments[|segments|..] == [];
    AheadEnds(values, segments, []);
    for i := 0 to |segments|
      invariant Ahead(rendered, RenderAll(values, segments[i..])) == RenderAll(values, segments)
    {
      AheadStep(values, segments, i, rendered);
      match segments[i]
      case Static(text) =>
        rendered := rendered + [text];
      case Derived(key) =>
        var scalar := ScalarBytes(Lookup(values, key));
        if scalar.None? { return None; }
        rendered := rendered + [Quoted(key) + COLON + scalar.value];
    }
    AheadEnds(values, segments, rendered);
    return Some(Braced(Join(rendered)));
  }

  /** The derived keys and values the route uses: plain keys, each with a value the scalar form renders. */
  predicate Spliceable(derived: Row) {
    derived == [] ||
    (Spliceable(derived[..|derived| - 1]) &&
     var (key, v) := derived[|derived| - 1];
     AllPlain(key) && !v.Other? && (v.Str? ==> AllPlain(v.s)))
  }

  lemma {:induction false} SpliceableAt(esc: Escapes, derived: Row, key: string)
    requires LongEscapes(esc) && Spliceable(derived) && HasKey(derived, key)
    ensures ScalarBytes(Lookup(derived, key)).Some?
    ensures Quoted(key) + COLON + ScalarBytes(Lookup(derived, key)).value == Member(esc, key, Lookup(derived, key))
  {
    if derived[|derived| - 1].0 == key {
      ScalarExact(esc, derived[|derived| - 1].1);
      EscapeLength(esc, key);
    } else {
      SpliceableAt(esc, derived[..|derived| - 1], key);
    }
  }

  ghost predicate SameKeys(keys: set<string>, derived: Row) {
    forall k :: k in keys <==> HasKey(derived, k)
  }

  function PlacedOne(derived: Row, member: (string, Value)): (string, Value) {
    (member.0, if HasKey(derived, member.0) then Lookup(derived, member.0) else member.1)
  }

  lemma {:induction false} PlacedFront(row: Row, derived: Row)
    requires row != []
    ensures Placed(row, derived) == [PlacedOne(derived, row[0])] + Placed(row[1..], derived)
  {
    if |row| == 1 {
      assert row[..0] == [] && row[1..] == [];
    } else {
      PlacedFront(row[..|row| - 1], derived);
      assert row[..|row| - 1][1..] == row[1..][..|row[1..]| - 1];
    }
  }

  lemma {:induction false} RenderAllAppend(values: Row, a: seq<Segment>, b: seq<Segment>)
    requires RenderAll(values, a).Some? && RenderAll(values, b).Some?
    ensures RenderAll(values, a + b).Some?
    ensures RenderAll(values, a + b).value == RenderAll(values, a).value + RenderAll(values, b).value
  {
    if a == [] {
      assert a + b == b;
    } else {
      RenderAllAppend(values, a[1..], b);
      assert (a + b)[0] == a[0] && (a + b)[1..] == a[1..] + b;
      Assoc([Render(values, a[0]).value], RenderAll(values, a[1..]).value, RenderAll(values, b).value);
    }
  }

  /** Two lists of parts that join to the same text, one empty when the other is. */
  predicate SameText(a: seq<string>, b: seq<string>) {
    Join(a) == Join(b) && (a == [] <==> b == [])
  }

  lemma {:induction false} SameTextAppend(a: seq<string>, b: seq<string>, c: seq<string>, d: seq<string>)
    requires SameText(a, b) && SameText(c, d)
    ensures SameText(a + c, b + d)
  {
    if a == [] {
      assert a + c == c && b + d == d;
    } else if c == [] {
      assert a + c == a && b + d == b;
    } else {
      JoinAppend(a, c);
      JoinAppend(b, d);
    }
  }

  lemma {:induction false} MembersAppend(esc: Escapes, a: Row, b: Row)
    ensures Members(esc, a + b) == Members(esc, a) + Members(esc, b)
  {
  }

  lemma {:induction false} FlushText(esc: Escapes, values: Row, run: Row)
    ensures RenderAll(values, Flush(esc, run)).Some?
    ensures SameText(RenderAll(values, Flush(esc, run)).value, Members(esc, run))
  {
    assert RenderAll(values, []) == Some([]);
    if run == [] {
      assert Members(esc, run) == [];
    } else {
      var only := Flush(esc, run);
      assert only[1..] == [];
      assert RenderAll(values, only).value == [Inside(esc, run)] + [];
    }
  }

  lemma {:induction false} DerivedText(esc: Escapes, derived: Row, key: string)
    requires LongEscapes(esc) && Spliceable(derived) && HasKey(derived, key)
    ensures RenderAll(derived, [Derived(key)]) == Some([Member(esc, key, Lookup(derived, key))])
  {
    var only := [Derived(key)];
    SpliceableAt(esc, derived, key);
    assert only[0] == Derived(key) && only[1..] == [];
    assert RenderAll(derived, []) == Some([]);
    var member := Member(esc, key, Lookup(derived, key));
    assert Render(derived, only[0]) == Some(member);
    assert RenderAll(derived, only).value == [member] + [] == [member];
  }

  /** Splicing the segments writes the row with the derived values in place. */
  lemma {:induction false} SpliceIsPlaced(esc: Escapes, keys: set<string>, row: Row, run: Row, derived: Row)
    requires LongEscapes(esc) && Spliceable(derived) && SameKeys(keys, derived)
    ensures RenderAll(derived, Segments(esc, keys, row, run)).Some?
    ensures SameText(RenderAll(derived, Segments(esc, keys, row, run)).value, Members(esc, run + Placed(row, derived)))
    decreases |row|
  {
    if row == [] {
      FlushText(esc, derived, run);
      assert run + Placed(row, derived) == run;
    } else {
      PlacedAfter(row, run, derived);
      if row[0].0 in keys {
        SpliceIsPlaced(esc, keys, row[1..], [], derived);
        SpliceDerived(esc, keys, row, run, derived);
      } else {
        SpliceIsPlaced(esc, keys, row[1..], run + [row[0]], derived);
        assert PlacedOne(derived, row[0]) == row[0];
      }
    }
  }

  lemma {:induction false} PlacedAfter(row: Row, run: Row, derived: Row)
    requires row != []
    ensures run + Placed(row, derived) == run + [PlacedOne(derived, row[0])] + Placed(row[1..], derived)
    ensures !HasKey(derived, row[0].0) ==> PlacedOne(derived, row[0]) == row[0]
  {
    PlacedFront(row, derived);
    assert row[0] == (row[0].0, row[0].1);
  }

  lemma {:induction false} SpliceDerived(esc: Escapes, keys: set<string>, row: Row, run: Row, derived: Row)
    requires LongEscapes(esc) && Spliceable(derived) && SameKeys(keys, derived)
    requires row != [] && row[0].0 in keys
    requires var rest := RenderAll(derived, Segments(esc, keys, row[1..], []));
             rest.Some? && SameText(rest.value, Members(esc, [] + Placed(row[1..], derived)))
    ensures RenderAll(derived, Segments(esc, keys, row, run)).Some?
    ensures SameText(RenderAll(derived, Segments(esc, keys, row, run)).value,
                     Members(esc, run + [PlacedOne(derived, row[0])] + Placed(row[1..], derived)))
  {
    var key, placed, tail := row[0].0, PlacedOne(derived, row[0]), Placed(row[1..], derived);
    var rest := Segments(esc, keys, row[1..], []);
    assert [] + tail == tail;
    FlushText(esc, derived, run);
    DerivedText(esc, derived, key);
    RenderAllAppend(derived, Flush(esc, run), [Derived(key)]);
    RenderAllAppend(derived, Flush(esc, run) + [Derived(key)], rest);
    var flushed, rendered := RenderAll(derived, Flush(esc, run)).value, RenderAll(derived, rest).value;
    var member := [Member(esc, key, Lookup(derived, key))];
    SameTextAppend(flushed, Members(esc, run), member, member);
    SameTextAppend(flushed + member, Members(esc, run) + member, rendered, Members(esc, tail));
    MembersAppend(esc, run, [placed]);
    MembersAppend(esc, run + [placed], tail);
    assert Members(esc, [placed]) == member;
  }

  // ---------------------------------------------------------------------------
  // When a derived key is not declared
  // ---------------------------------------------------------------------------

  lemma {:induction false} ReplaceAppend(a: Row, b: Row, key: string, v: Value)
    ensures Replace(a + b, key, v) == Replace(a, key, v) + Replace(b, key, v)
    ensures HasKey(a + b, key) <==> HasKey(a, key) || HasKey(b, key)
    ensures Replace(b, key, v) == [] <==> b == []
    decreases |b|
  {
    if b == [] {
      assert a + b == a;
    } else {
      ReplaceAppend(a, b[..|b| - 1], key, v);
      assert (a + b)[..|a + b| - 1] == a + b[..|b| - 1];
    }
  }

  lemma {:induction false} ReplaceNothing(row: Row, key: string, v: Value)
    requires !HasKey(row, key)
    ensures Replace(row, key, v) == row
  {
    if row != [] {
      ReplaceNothing(row[..|row| - 1], key, v);
      assert row == row[..|row| - 1] + [(row[|row| - 1].0, row[|row| - 1].1)];
    }
  }

  lemma {:induction false} AssignAppends(placed: Row, before: Row, key: string, v: Value) returns (extra: Row)
    ensures Assign(placed + before, key, v) == Replace(placed, key, v) + extra
    ensures extra == [] <==> before == [] && HasKey(placed, key)
  {
    ReplaceAppend(placed, before, key, v);
    if HasKey(placed + before, key) {
      extra := Replace(before, key, v);
    } else {
      extra := before + [(key, v)];
      ReplaceNothing(placed, key, v);
      assert placed + before + [(key, v)] == placed + (before + [(key, v)]);
    }
  }

  /** What the assignments append: nothing exactly when the row declares every derived key. */
  lemma {:induction false} OverlayAppends(row: Row, derived: Row) returns (extra: Row)
    ensures Overlay(row, derived) == Placed(row, derived) + extra
    ensures extra == [] <==> AllIn(derived, row)
  {
    if derived == [] {
      extra := [];
      PlacedNothing(row);
      assert Placed(row, derived) + extra == row;
    } else {
      var n := |derived| - 1;
      var (key, v) := derived[n];
      var before := OverlayAppends(row, derived[..n]);
      assert derived == derived[..n] + [(key, v)];
      PlacedSnoc(row, derived[..n], key, v);
      PlacedKeys(row, derived[..n], key);
      extra := AssignAppends(Placed(row, derived[..n]), before, key, v);
    }
  }

  lemma {:induction false} MoreMembersAreLonger(esc: Escapes, row: Row, extra: Row)
    requires extra != []
    ensures |Inside(esc, row + extra)| > |Inside(esc, row)|
  {
    MembersAppend(esc, row, extra);
    if row == [] {
      assert Members(esc, row) == [] && Members(esc, row) + Members(esc, extra) == Members(esc, extra);
      MembersHaveText(Members(esc, extra));
    } else {
      JoinAppend(Members(esc, row), Members(esc, extra));
    }
  }

  lemma {:induction false} MembersHaveText(parts: seq<string>)
    requires parts != [] && |parts[|parts| - 1]| > 0
    ensures |Join(parts)| > 0
  {
  }

  /** The splice writes the overlaid row exactly when the model declares every derived key. */
  lemma {:induction false} SpliceExact(esc: Escapes, row: Row, derived: Row)
    ensures RenderRow(esc, Placed(row, derived)) == RenderRow(esc, Overlay(row, derived)) <==> AllIn(derived, row)
  {
    var extra := OverlayAppends(row, derived);
    if extra == [] {
      assert Placed(row, derived) + extra == Placed(row, derived);
    } else {
      MoreMembersAreLonger(esc, Placed(row, derived), extra);
      assert |RenderRow(esc, Placed(row, derived))| == |Inside(esc, Placed(row, derived))| + 2;
      assert |RenderRow(esc, Overlay(row, derived))| == |Inside(esc, Overlay(row, derived))| + 2;
    }
  }

  /** The whole body of an object, as json.dumps writes it. */
  function RenderRow(esc: Escapes, row: Row): string {
    Braced(Inside(esc, row))
  }

  /** The texts of values, and of a row of two members. */
  lemma {:induction false} ValueTexts(esc: Escapes)
    ensures Dump(esc, Null) == "null" && Dump(esc, Bool(true)) == "true" && Dump(esc, Bool(false)) == "false"
    ensures Dump(esc, Int(-10)) == "-10" && Dump(esc, Str("x y")) == "\"x y\""
  {
    PlainText(esc, "x y");
    assert Decimal(1) == "1" && Decimal(10) == Decimal(1) + "0";
  }

  /** A member is its quoted key, a colon and its value. */
  lemma {:induction false} MemberText(esc: Escapes, key: string, v: Value)
    requires forall i :: 0 <= i < |key| ==> Plain(key[i])
    ensures Member(esc, key, v) == "\"" + key + "\"" + ":" + Dump(esc, v)
  {
    PlainText(esc, key);
  }

  /** Members are parted by commas, between braces. */
  lemma {:induction false} RowText(esc: Escapes, a: (string, Value), b: (string, Value))
    ensures RenderRow(esc, [a, b]) == "{" + (Member(esc, a.0, a.1) + "," + Member(esc, b.0, b.1)) + "}"
  {
    var first, second := Member(esc, a.0, a.1), Member(esc, b.0, b.1);
    assert Members(esc, [a, b]) == [first, second];
    JoinTwo(first, second);
  }

  lemma {:induction false} JoinTwo(a: string, b: string)
    ensures Join([a, b]) == a + "," + b
  {
    assert [a, b][..1] == [a];
  }

  lemma {:induction false} PlainText(esc: Escapes, s: string)
    requires forall i :: 0 <= i < |s| ==> Plain(s[i])
    ensures Escape(esc, s) == s
  {
    if s != [] {
      PlainText(esc, s[..|s| - 1]);
    }
  }

  /**
   * One row of the response.  Whatever the placement of the derived keys, next to each other or at
   * either end, the bytes are those of the row with each derived value in its place; when the
   * model declares every derived key, these are the bytes of the row the assignments leave.
   */
  method SplicedRow(esc: Escapes, keys: set<string>, row: Row, derived: Row) returns (r: Option<string>)
    requires LongEscapes(esc) && Spliceable(derived) && SameKeys(keys, derived)
    ensures r == Some(RenderRow(esc, Placed(row, derived)))
    ensures r == Some(RenderRow(esc, Overlay(row, derived))) <==> AllIn(derived, row)
  {
    var segments := StaticSegments(esc, keys, row);
    r := SpliceRow(segments, derived);
    SpliceIsPlaced(esc, keys, row, [], derived);
    SpliceExact(esc, row, derived);
    assert [] + Placed(row, derived) == Placed(row, derived);
  }
}
