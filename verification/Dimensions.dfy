/**
 Dimension matchers: reference rows precompiled for lookup by exact key, with an
 index, or by keyword, with priorities. `lower` stands for `str::to_lowercase`.
 */
module Dimensions {
  import opened Text
  import opened Config
  import opened CsvLine

  const MAX_DIMENSION_ROWS: nat := 1_000_000

  /** A row on its way into a matcher, or compiled, with its patterns folded. */
  datatype Row = Row(patterns: seq<string>, values: seq<Option<string>>, priority: int)

  datatype DimensionError =
    | DuplicateKey(id: string, key: string)
    | TooManyRows(id: string, rows: nat, max: nat)
    | MissingColumn(id: string, column: string)
    | FileRead(id: string, message: string)

  datatype Matcher = Matcher(rows: seq<Row>, valueColumns: seq<string>, mode: MatchMode, caseInsensitive: bool,
                             onMiss: OnMiss, index: map<string, nat>)
  {
    /** `value_index`: without a name, the first column. */
    function ValueIndex(name: Option<string>): (r: Option<nat>)
      ensures name.Some? ==> (r.None? <==> name.value !in valueColumns)
      ensures name.Some? && r.Some? ==>
                r.value < |valueColumns| && valueColumns[r.value] == name.value
                && name.value !in valueColumns[..r.value]
      ensures name.None? ==> r == Some(0)
    {
      if name.None? then Some(0) else PositionOf(valueColumns, name.value)
    }
  }

  function PositionOf(names: seq<string>, name: string): (r: Option<nat>)
    ensures r.None? <==> name !in names
    ensures r.Some? ==> r.value < |names| && names[r.value] == name && name !in names[..r.value]
  {
    if names == [] then None
    else if names[0] == name then Some(0)
    else
      match PositionOf(names[1..], name)
      case None => None
      case Some(i) =>
        assert names[..i + 1] == [names[0]] + names[1..][..i];
        Some(i + 1)
  }

  predicate FoldsCase(dim: Dimension) {
    dim.caseInsensitive == Some(true)
  }

  function Fold(lower: string -> string, folds: bool, s: string): string {
    if folds then lower(s) else s
  }

  function FoldRow(lower: string -> string, folds: bool, row: Row): (r: Row)
    ensures |r.patterns| == |row.patterns|
    ensures forall i | 0 <= i < |r.patterns| :: r.patterns[i] == Fold(lower, folds, row.patterns[i])
    ensures r.values == row.values && r.priority == row.priority
  {
    row.(patterns := seq(|row.patterns|, i requires 0 <= i < |row.patterns| => Fold(lower, folds, row.patterns[i])))
  }

  function FoldRows(lower: string -> string, folds: bool, rows: seq<Row>): (r: seq<Row>)
    ensures |r| == |rows|
    ensures forall i | 0 <= i < |r| :: r[i] == FoldRow(lower, folds, rows[i])
  {
    seq(|rows|, i requires 0 <= i < |rows| => FoldRow(lower, folds, rows[i]))
  }

  /** All keys, row by row. */
  function Keys(rows: seq<Row>): seq<string> {
    if rows == [] then [] else Keys(rows[..|rows| - 1]) + rows[|rows| - 1].patterns
  }

  /** What the index says: each key's row, and no other keys. */
  ghost predicate Indexes(index: map<string, nat>, rows: seq<Row>) {
    && (forall key | key in index :: index[key] < |rows| && key in rows[index[key]].patterns)
    && forall i, key | 0 <= i < |rows| && key in rows[i].patterns :: key in index && index[key] == i
  }

  // Building

  lemma {:induction false} KeysPrefix(rows: seq<Row>, i: nat, j: nat)
    requires i < |rows| && j < |rows[i].patterns|
    ensures (Keys(rows[..i]) + rows[i].patterns[..j]) + [rows[i].patterns[j]] <= Keys(rows)
    decreases |rows|
  {
    var shorter := rows[..|rows| - 1];
    if i == |rows| - 1 {
      assert rows[..i] == shorter;
      assert rows[i].patterns[..j] + [rows[i].patterns[j]] + rows[i].patterns[j + 1..] == rows[i].patterns;
    } else {
      KeysPrefix(shorter, i, j);
      assert shorter[..i] == rows[..i];
    }
  }

  /** Every key of the index is a key of the row it gives. */
  predicate Owners(index: map<string, nat>, rows: seq<Row>) {
    forall key | key in index :: index[key] < |rows| && key in rows[index[key]].patterns
  }

  lemma {:induction false} KeysHold(rows: seq<Row>, i: nat, key: string)
    requires i < |rows| && key in rows[i].patterns
    ensures key in Keys(rows)
    decreases |rows|
  {
    if i < |rows| - 1 { KeysHold(rows[..|rows| - 1], i, key); }
  }

  lemma NoneShared(a: seq<string>, b: seq<string>, key: string)
    requires NoRepeats(a + b) && key in a
    ensures key !in b
  {
    var m :| 0 <= m < |a| && a[m] == key;
    forall n | 0 <= n < |b| ensures b[n] != key {
      assert (a + b)[m] == key && (a + b)[|a| + n] == b[n];
    }
  }

  lemma NotAgain(rows: seq<Row>, i: nat, key: string)
    requires NoRepeats(Keys(rows)) && i < |rows| - 1 && key in rows[i].patterns
    ensures key !in rows[|rows| - 1].patterns
  {
    KeysHold(rows[..|rows| - 1], i, key);
    NoneShared(Keys(rows[..|rows| - 1]), rows[|rows| - 1].patterns, key);
  }

  lemma {:induction false} OneOwner(rows: seq<Row>, i: nat, k: nat, key: string)
    requires NoRepeats(Keys(rows)) && i <= k < |rows| && key in rows[i].patterns && key in rows[k].patterns
    ensures i == k
    decreases |rows|
  {
    var shorter := rows[..|rows| - 1];
    assert forall m | 0 <= m < |Keys(shorter)| :: Keys(shorter)[m] == Keys(rows)[m];
    if i < |rows| - 1 { NotAgain(rows, i, key); }
    if k < |rows| - 1 { OneOwner(shorter, i, k, key); }
  }

  lemma OwnersIndex(index: map<string, nat>, rows: seq<Row>)
    requires NoRepeats(Keys(rows)) && Owners(index, rows) && forall key :: key in index <==> key in Keys(rows)
    ensures Indexes(index, rows)
  {
    forall i, key | 0 <= i < |rows| && key in rows[i].patterns ensures key in index && index[key] == i {
      KeysHold(rows, i, key);
      if index[key] <= i { OneOwner(rows, index[key], i, key); } else { OneOwner(rows, i, index[key], key); }
    }
  }

  /** Index exact keys; a repeated key is an error, and the error names one. */
  method IndexKeys(id: string, rows: seq<Row>) returns (r: Result<map<string, nat>, DimensionError>)
    ensures r.Ok? <==> NoRepeats(Keys(rows))
    ensures r.Ok? ==> Indexes(r.value, rows)
    ensures r.Err? ==> r.error.DuplicateKey? && r.error.id == id && Repeated(Keys(rows), r.error.key)
  {
    var index: map<string, nat> := map[];
    ghost var seen: seq<string> := [];
    for i := 0 to |rows|
      invariant seen == Keys(rows[..i]) && NoRepeats(seen)
      invariant Owners(index, rows) && forall key :: key in index <==> key in seen
    {
      var patterns := rows[i].patterns;
      for j := 0 to |patterns|
        invariant seen == Keys(rows[..i]) + patterns[..j] && NoRepeats(seen)
        invariant Owners(index, rows) && forall key :: key in index <==> key in seen
      {
        var key := patterns[j];
        KeysPrefix(rows, i, j);
        if key in index {
          RepeatFound(seen, key, Keys(rows));
          return Err(DuplicateKey(id, key));
        }
        assert patterns[..j + 1] == patterns[..j] + [key];
        index := index[key := i];
        seen := seen + [key];
      }
      assert patterns[..|patterns|] == patterns;
      assert rows[..i + 1][..i] == rows[..i];
    }
    assert rows[..|rows|] == rows;
    OwnersIndex(index, rows);
    return Ok(index);
  }

  ghost predicate Repeated(keys: seq<string>, key: string) {
    exists i, j :: 0 <= i < j < |keys| && keys[i] == keys[j] == key
  }

  lemma RepeatFound(seen: seq<string>, key: string, keys: seq<string>)
    requires key in seen && seen + [key] <= keys
    ensures Repeated(keys, key) && !NoRepeats(keys)
  {
    var i :| 0 <= i < |seen| && seen[i] == key;
    assert (seen + [key])[i] == keys[i] && (seen + [key])[|seen|] == keys[|seen|];
  }

  /** What a matcher made from these rows is; `index` aside, it is determined. */
  ghost predicate Compiled(m: Matcher, lower: string -> string, dim: Dimension, rows: seq<Row>) {
    && m.rows == FoldRows(lower, FoldsCase(dim), rows)
    && m.valueColumns == dim.ValueColumns() && m.mode == dim.mode && m.caseInsensitive == FoldsCase(dim)
    && m.onMiss == dim.onMiss
    && (m.mode.Exact? ==> NoRepeats(Keys(m.rows)) && Indexes(m.index, m.rows))
  }

  // Which keys clash, told of the rows as given

  /** A pattern of a row. */
  predicate Place(rows: seq<Row>, i: nat, a: nat) {
    i < |rows| && a < |rows[i].patterns|
  }

  /** Two patterns mean the same key: alike, or alike in lower case if case is ignored. */
  predicate SameKey(lower: string -> string, dim: Dimension, p: string, q: string) {
    if dim.caseInsensitive == Some(true) then lower(p) == lower(q) else p == q
  }

  ghost predicate Clash(lower: string -> string, dim: Dimension, rows: seq<Row>, i: nat, a: nat, k: nat, b: nat) {
    && Place(rows, i, a) && Place(rows, k, b) && (i < k || (i == k && a < b))
    && SameKey(lower, dim, rows[i].patterns[a], rows[k].patterns[b])
  }

  ghost predicate KeysDiffer(lower: string -> string, dim: Dimension, rows: seq<Row>) {
    forall i: nat, a: nat, k: nat, b: nat :: !Clash(lower, dim, rows, i, a, k, b)
  }

  /** Rows a dimension can be compiled from: few enough and, for exact matching,
      no two patterns the same key. */
  ghost predicate Acceptable(lower: string -> string, dim: Dimension, rows: seq<Row>) {
    |rows| <= 1_000_000 && (dim.mode.Exact? ==> KeysDiffer(lower, dim, rows))
  }

  /** A key that two patterns come to. */
  ghost predicate ClashOver(lower: string -> string, dim: Dimension, rows: seq<Row>, key: string) {
    exists i: nat, a: nat, k: nat, b: nat :: Clash(lower, dim, rows, i, a, k, b)
                         && key == if dim.caseInsensitive == Some(true) then lower(rows[i].patterns[a]) else rows[i].patterns[a]
  }

  /** Where a pattern stands among all keys. */
  function Position(rows: seq<Row>, i: nat, a: nat): nat
    requires Place(rows, i, a)
  {
    |Keys(rows[..i])| + a
  }

  lemma {:induction false} KeysGrow(rows: seq<Row>, i: nat, k: nat)
    requires i < k <= |rows|
    ensures |Keys(rows[..i])| + |rows[i].patterns| <= |Keys(rows[..k])|
    decreases k
  {
    assert rows[..k][..k - 1] == rows[..k - 1];
    if i < k - 1 { KeysGrow(rows, i, k - 1); }
  }

  lemma PositionsOrdered(rows: seq<Row>, i: nat, a: nat, k: nat, b: nat)
    requires Place(rows, i, a) && Place(rows, k, b)
    ensures Position(rows, i, a) < Position(rows, k, b) <==> i < k || (i == k && a < b)
  {
    if i < k { KeysGrow(rows, i, k); }
    if k < i { KeysGrow(rows, k, i); }
  }

  lemma KeyAtPosition(rows: seq<Row>, i: nat, a: nat)
    requires Place(rows, i, a)
    ensures Position(rows, i, a) < |Keys(rows)| && Keys(rows)[Position(rows, i, a)] == rows[i].patterns[a]
  {
    KeysPrefix(rows, i, a);
    var shorter := (Keys(rows[..i]) + rows[i].patterns[..a]) + [rows[i].patterns[a]];
    assert shorter[Position(rows, i, a)] == Keys(rows)[Position(rows, i, a)];
  }

  lemma {:induction false} PlaceOf(rows: seq<Row>, n: nat) returns (i: nat, a: nat)
    requires n < |Keys(rows)|
    ensures Place(rows, i, a) && Position(rows, i, a) == n
    decreases |rows|
  {
    var shorter := rows[..|rows| - 1];
    if n < |Keys(shorter)| {
      i, a := PlaceOf(shorter, n);
      assert shorter[..i] == rows[..i];
    } else {
      i, a := |rows| - 1, n - |Keys(shorter)|;
    }
  }

  /** Equal keys among the folded ones are patterns that clash. */
  lemma RepeatsClash(lower: string -> string, dim: Dimension, rows: seq<Row>, m: nat, n: nat)
    requires var keys := Keys(FoldRows(lower, FoldsCase(dim), rows)); m < n < |keys| && keys[m] == keys[n]
    ensures ClashOver(lower, dim, rows, Keys(FoldRows(lower, FoldsCase(dim), rows))[m])
  {
    var folded := FoldRows(lower, FoldsCase(dim), rows);
    var i, a := PlaceOf(folded, m);
    var k, b := PlaceOf(folded, n);
    KeyAtPosition(folded, i, a);
    KeyAtPosition(folded, k, b);
    PositionsOrdered(folded, i, a, k, b);
    assert Clash(lower, dim, rows, i, a, k, b);
  }

  lemma ClashesRepeat(lower: string -> string, dim: Dimension, rows: seq<Row>, i: nat, a: nat, k: nat, b: nat)
    requires Clash(lower, dim, rows, i, a, k, b)
    ensures !NoRepeats(Keys(FoldRows(lower, FoldsCase(dim), rows)))
  {
    var folded := FoldRows(lower, FoldsCase(dim), rows);
    KeyAtPosition(folded, i, a);
    KeyAtPosition(folded, k, b);
    PositionsOrdered(folded, i, a, k, b);
  }

  lemma DistinctIffNoClash(lower: string -> string, dim: Dimension, rows: seq<Row>)
    ensures NoRepeats(Keys(FoldRows(lower, FoldsCase(dim), rows))) <==> KeysDiffer(lower, dim, rows)
  {
    var keys := Keys(FoldRows(lower, FoldsCase(dim), rows));
    forall i: nat, a: nat, k: nat, b: nat | Clash(lower, dim, rows, i, a, k, b) ensures !NoRepeats(keys) {
      ClashesRepeat(lower, dim, rows, i, a, k, b);
    }
    forall m: nat, n: nat | m < n < |keys| && keys[m] == keys[n] ensures !KeysDiffer(lower, dim, rows) {
      RepeatsClash(lower, dim, rows, m, n);
    }
  }

  /** `DimensionMatcher::new` succeeds iff the rows are within the cap and, for
      exact matching, no two patterns are the same key. */
  method New(lower: string -> string, dim: Dimension, rows: seq<Row>) returns (r: Result<Matcher, DimensionError>)
    ensures r.Ok? <==> Acceptable(lower, dim, rows)
    ensures r.Ok? ==> Compiled(r.value, lower, dim, rows)
    ensures r.Err? && |rows| > 1_000_000 ==> r.error == TooManyRows(dim.id, |rows|, 1_000_000)
    ensures r.Err? && |rows| <= 1_000_000 ==>
              r.error.DuplicateKey? && r.error.id == dim.id && ClashOver(lower, dim, rows, r.error.key)
  {
    DistinctIffNoClash(lower, dim, rows);
    if |rows| > MAX_DIMENSION_ROWS {
      return Err(TooManyRows(dim.id, |rows|, MAX_DIMENSION_ROWS));
    }
    var compiled := FoldRows(lower, FoldsCase(dim), rows);
    var index: map<string, nat> := map[];
    if dim.mode.Exact? {
      var keys := IndexKeys(dim.id, compiled);
      if keys.Err? {
        var m: nat, n: nat :| m < n < |Keys(compiled)| && Keys(compiled)[m] == Keys(compiled)[n] == keys.error.key;
        RepeatsClash(lower, dim, rows, m, n);
        return Err(keys.error);
      }
      index := keys.value;
    }
    return Ok(Matcher(compiled, dim.ValueColumns(), dim.mode, FoldsCase(dim), dim.onMiss, index));
  }

  // Looking up

  /** Whether a row matches an input, by the dimension's mode. */
  predicate Matches(mode: MatchMode, row: Row, folded: string) {
    match mode
    case Exact => folded in row.patterns
    case KeywordSubstring => exists p | p in row.patterns :: Text.Contains(folded, p)
  }

  /** The row a naive scan settles on: of those that match, the first, or for
      keywords the first of those with the highest priority. */
  ghost predicate Wins(mode: MatchMode, rows: seq<Row>, folded: string, i: nat) {
    && i < |rows| && Matches(mode, rows[i], folded)
    && forall k | 0 <= k < |rows| && Matches(mode, rows[k], folded) ::
         match mode
         case Exact => i <= k
         case KeywordSubstring =>
           rows[k].priority < rows[i].priority || (rows[k].priority == rows[i].priority && i <= k)
  }

  method FindRow(m: Matcher, folded: string) returns (hit: Option<nat>)
    requires m.mode.Exact? ==> Indexes(m.index, m.rows)
    ensures hit.Some? ==> Wins(m.mode, m.rows, folded, hit.value)
    ensures hit.None? ==> forall k | 0 <= k < |m.rows| :: !Matches(m.mode, m.rows[k], folded)
  {
    match m.mode
    case Exact => return if folded in m.index then Some(m.index[folded]) else None;
    case KeywordSubstring =>
      hit := None;
      for i := 0 to |m.rows|
        invariant hit.Some? ==> hit.value < i && Wins(m.mode, m.rows[..i], folded, hit.value)
        invariant hit.None? ==> forall k | 0 <= k < i :: !Matches(m.mode, m.rows[k], folded)
      {
        if Matches(m.mode, m.rows[i], folded) {
          if hit.Some? && m.rows[hit.value].priority >= m.rows[i].priority {
          } else {
            hit := Some(i);
          }
        }
      }
      assert m.rows[..|m.rows|] == m.rows;
  }

  /** The value a row gives, and what the dimension gives when no row matches. */
  function ValueAt(row: Row, valueIndex: nat): Option<string> {
    if valueIndex < |row.values| then row.values[valueIndex] else None
  }

  function Missed(onMiss: OnMiss, input: string): Option<string> {
    match onMiss
    case NullOut => None
    case Passthrough => Some(input)
    case Literal(text) => Some(text)
  }

  // What a lookup means, told of the rows and the input as given

  ghost predicate Occurs(part: string, whole: string) {
    exists before: string, after: string :: whole == before + part + after
  }

  /** Whether a pattern matches an input: it is the input, or occurs in it; in
      lower case both, if case is ignored. */
  ghost predicate Meets(lower: string -> string, dim: Dimension, pattern: string, input: string) {
    match dim.mode
    case Exact =>
      if dim.caseInsensitive == Some(true) then lower(pattern) == lower(input) else pattern == input
    case KeywordSubstring =>
      if dim.caseInsensitive == Some(true) then Occurs(lower(pattern), lower(input)) else Occurs(pattern, input)
  }

  ghost predicate Hits(lower: string -> string, dim: Dimension, row: Row, input: string) {
    exists p | p in row.patterns :: Meets(lower, dim, p, input)
  }

  /** Whether row `i` is the one: of the rows that match, the first, or for
      keywords the first of those with the highest priority. */
  ghost predicate Best(lower: string -> string, dim: Dimension, rows: seq<Row>, input: string, i: nat) {
    && i < |rows| && Hits(lower, dim, rows[i], input)
    && forall k | 0 <= k < |rows| && k != i && Hits(lower, dim, rows[k], input) ::
         || (dim.mode.KeywordSubstring? && rows[k].priority < rows[i].priority)
         || ((dim.mode.KeywordSubstring? ==> rows[k].priority == rows[i].priority) && i < k)
  }

  /** The result a linear scan over the rows as given would return. */
  ghost predicate Scans(lower: string -> string, dim: Dimension, rows: seq<Row>, input: string, valueIndex: nat,
                        r: Option<string>)
  {
    && (forall i: nat | Best(lower, dim, rows, input, i) ::
          r == if valueIndex < |rows[i].values| then rows[i].values[valueIndex] else None)
    && ((forall k | 0 <= k < |rows| :: !Hits(lower, dim, rows[k], input)) ==>
          (dim.onMiss == NullOut ==> r == None)
          && (dim.onMiss == Passthrough ==> r == Some(input))
          && (dim.onMiss.Literal? ==> r == Some(dim.onMiss.text)))
  }

  lemma OccursIffContains(part: string, whole: string)
    ensures Text.Contains(whole, part) <==> Occurs(part, whole)
  {
    if at: nat :| at <= |whole| && ContainsAt(whole, part, at) {
      assert whole == whole[..at] + part + whole[at + |part|..];
    }
    if before: string, after: string :| whole == before + part + after {
      assert ContainsAt(whole, part, |before|);
    }
  }

  lemma MatchesIffHits(lower: string -> string, dim: Dimension, row: Row, input: string)
    ensures Matches(dim.mode, FoldRow(lower, FoldsCase(dim), row), Fold(lower, FoldsCase(dim), input))
       <==> Hits(lower, dim, row, input)
  {
    var folded, compiled := Fold(lower, FoldsCase(dim), input), FoldRow(lower, FoldsCase(dim), row);
    forall p { OccursIffContains(p, folded); }
    if p :| p in row.patterns && Meets(lower, dim, p, input) {
      var a :| 0 <= a < |row.patterns| && row.patterns[a] == p;
      assert compiled.patterns[a] in compiled.patterns;
    }
    if Matches(dim.mode, compiled, folded) {
      var p :| p in compiled.patterns && (if dim.mode.Exact? then p == folded else Text.Contains(folded, p));
      var a :| 0 <= a < |row.patterns| && compiled.patterns[a] == p;
      assert Meets(lower, dim, row.patterns[a], input);
    }
  }

  lemma WinsIffBest(lower: string -> string, dim: Dimension, rows: seq<Row>, input: string, i: nat)
    ensures Wins(dim.mode, FoldRows(lower, FoldsCase(dim), rows), Fold(lower, FoldsCase(dim), input), i)
       <==> Best(lower, dim, rows, input, i)
  {
    var compiled, folded := FoldRows(lower, FoldsCase(dim), rows), Fold(lower, FoldsCase(dim), input);
    forall k | 0 <= k < |rows| ensures Matches(dim.mode, compiled[k], folded) <==> Hits(lower, dim, rows[k], input) {
      MatchesIffHits(lower, dim, rows[k], input);
    }
  }

  /** `lookup` returns what a linear scan over the rows as given would. */
  method Lookup(m: Matcher, lower: string -> string, ghost dim: Dimension, ghost rows: seq<Row>, input: string,
                valueIndex: nat) returns (r: Option<string>)
    requires Compiled(m, lower, dim, rows)
    ensures Scans(lower, dim, rows, input, valueIndex, r)
  {
    var folded := Fold(lower, m.caseInsensitive, input);
    var hit := FindRow(m, folded);
    match hit
    case Some(i) =>
      forall k: nat | Best(lower, dim, rows, input, k) ensures k == i {
        WinsIffBest(lower, dim, rows, input, k);
        OneWinner(m.mode, m.rows, folded, i, k);
      }
      MatchesIffHits(lower, dim, rows[i], input);
      return ValueAt(m.rows[i], valueIndex);
    case None =>
      forall k: nat | k < |rows| ensures !Hits(lower, dim, rows[k], input) { MatchesIffHits(lower, dim, rows[k], input); }
      return Missed(m.onMiss, input);
  }

  lemma OneWinner(mode: MatchMode, rows: seq<Row>, folded: string, i: nat, k: nat)
    requires Wins(mode, rows, folded, i) && Wins(mode, rows, folded, k)
    ensures i == k
  {
  }

  lemma {:induction false} SomeoneWins(mode: MatchMode, rows: seq<Row>, folded: string, k: nat) returns (i: nat)
    requires k < |rows| && Matches(mode, rows[k], folded)
    ensures Wins(mode, rows, folded, i)
    decreases |rows|
  {
    var last := |rows| - 1;
    if j: nat :| j < last && Matches(mode, rows[j], folded) {
      i := SomeoneWins(mode, rows[..last], folded, j);
      if Matches(mode, rows[last], folded) && mode.KeywordSubstring? && rows[i].priority < rows[last].priority { i := last; }
    } else {
      i := last;
    }
  }

  /** The scan's result is defined for every input, and only one value fits it. */
  lemma ScanIsFunction(lower: string -> string, dim: Dimension, rows: seq<Row>, input: string, valueIndex: nat,
                       a: Option<string>, b: Option<string>)
    requires Scans(lower, dim, rows, input, valueIndex, a) && Scans(lower, dim, rows, input, valueIndex, b)
    ensures a == b
  {
    var folded, compiled := Fold(lower, FoldsCase(dim), input), FoldRows(lower, FoldsCase(dim), rows);
    if k: nat :| k < |rows| && Hits(lower, dim, rows[k], input) {
      MatchesIffHits(lower, dim, rows[k], input);
      var i := SomeoneWins(dim.mode, compiled, folded, k);
      WinsIffBest(lower, dim, rows, input, i);
    }
  }

  // Rows from the config, and the registry of inline dimensions

  function AllSome(values: seq<string>): (r: seq<Option<string>>)
    ensures |r| == |values| && forall i | 0 <= i < |r| :: r[i] == Some(values[i])
  {
    seq(|values|, i requires 0 <= i < |values| => Some(values[i]))
  }

  function InlineRows(rows: seq<InlineRow>): (r: seq<Row>)
    ensures |r| == |rows|
    ensures forall i | 0 <= i < |r| ::
              r[i].patterns == rows[i].patterns && r[i].priority == rows[i].priority && |r[i].values| == |rows[i].values|
              && forall k | 0 <= k < |r[i].values| :: r[i].values[k] == Some(rows[i].values[k])
  {
    seq(|rows|, i requires 0 <= i < |rows| => Row(rows[i].patterns, AllSome(rows[i].values), rows[i].priority))
  }

  type Registry = map<string, Matcher>

  /** The last inline dimension of each id is in the registry, compiled. */
  ghost predicate Registers(registry: Registry, lower: string -> string, dims: seq<Dimension>) {
    && (forall id | id in registry :: exists d | d in dims :: d.rows.Inline? && d.id == id)
    && forall i | 0 <= i < |dims| && dims[i].rows.Inline? && Latest(dims, i) ::
         dims[i].id in registry && Compiled(registry[dims[i].id], lower, dims[i], InlineRows(dims[i].rows.rows))
  }

  predicate Latest(dims: seq<Dimension>, i: nat)
    requires i < |dims|
  {
    forall k | i < k < |dims| :: dims[k].rows.Inline? ==> dims[k].id != dims[i].id
  }

  method BuildInlineRegistry(lower: string -> string, dims: seq<Dimension>) returns (r: Result<Registry, DimensionError>)
    ensures r.Ok? <==> forall d | d in dims && d.rows.Inline? :: Acceptable(lower, d, InlineRows(d.rows.rows))
    ensures r.Ok? ==> Registers(r.value, lower, dims)
  {
    var registry: Registry := map[];
    for i := 0 to |dims|
      invariant Registers(registry, lower, dims[..i])
      invariant forall d | d in dims[..i] && d.rows.Inline? :: Acceptable(lower, d, InlineRows(d.rows.rows))
    {
      var dim := dims[i];
      ghost var before := registry;
      assert dims[..i + 1] == dims[..i] + [dim];
      if dim.rows.Inline? {
        var matcher := New(lower, dim, InlineRows(dim.rows.rows));
        if matcher.Err? {
          assert dim in dims;
          return Err(matcher.error);
        }
        registry := registry[dim.id := matcher.value];
      }
      RegistersMore(before, registry, lower, dims[..i], dim);
    }
    assert dims[..|dims|] == dims;
    return Ok(registry);
  }

  lemma RegistersMore(before: Registry, after: Registry, lower: string -> string, dims: seq<Dimension>, dim: Dimension)
    requires Registers(before, lower, dims)
    requires if dim.rows.Inline?
             then exists m :: after == before[dim.id := m] && Compiled(m, lower, dim, InlineRows(dim.rows.rows))
             else after == before
    ensures Registers(after, lower, dims + [dim])
  {
    var more := dims + [dim];
    forall id | id in after ensures exists d | d in more :: d.rows.Inline? && d.id == id {
      if id in before {
        var d :| d in dims && d.rows.Inline? && d.id == id;
        assert d in more;
      } else {
        assert dim in more;
      }
    }
    forall i | 0 <= i < |more| && more[i].rows.Inline? && Latest(more, i)
      ensures more[i].id in after && Compiled(after[more[i].id], lower, more[i], InlineRows(more[i].rows.rows))
    {
      if i < |dims| {
        assert more[|dims|] == dim;
        forall k | i < k < |dims| ensures dims[k].rows.Inline? ==> dims[k].id != dims[i].id { assert more[k] == dims[k]; }
        assert Latest(dims, i);
      }
    }
  }

  // Rows from a file in the lake

  /** Which columns of the file a dimension reads. */
  datatype Layout = Layout(key: nat, values: seq<nat>, priority: Option<nat>)

  function FieldAt(fields: seq<string>, i: nat): Option<string> {
    if i < |fields| then Some(fields[i]) else None
  }

  function PriorityOf(fields: seq<string>, column: Option<nat>): int {
    if column.None? || column.value >= |fields| then 0
    else match ParseSigned(fields[column.value]) case Some(p) => p case None => 0
  }

  /** The row a line holds, if it has a key. */
  function RowOf(layout: Layout, fields: seq<string>): Option<Row> {
    var key := FieldAt(fields, layout.key);
    if key.None? || key.value == "" then None
    else Some(Row([key.value],
                  seq(|layout.values|, i requires 0 <= i < |layout.values| => FieldAt(fields, layout.values[i])),
                  PriorityOf(fields, layout.priority)))
  }

  function RowsOf(layout: Layout, lines: seq<string>): seq<Row> {
    if lines == [] then []
    else
      RowsOf(layout, lines[..|lines| - 1])
      + match RowOf(layout, Split(lines[|lines| - 1])) case Some(row) => [row] case None => []
  }

  /** Where the header has the columns; the error names the first it lacks, the
      key's before the values' and the priority's last. */
  ghost predicate LaysOut(header: seq<string>, key: string, values: seq<string>, priority: Option<string>, layout: Layout) {
    && PositionOf(header, key) == Some(layout.key)
    && |layout.values| == |values|
    && (forall i | 0 <= i < |values| :: PositionOf(header, values[i]) == Some(layout.values[i]))
    && match priority
       case None => layout.priority.None?
       case Some(p) => layout.priority.Some? && PositionOf(header, p) == layout.priority
  }

  function Wanted(key: string, values: seq<string>, priority: Option<string>): seq<string> {
    [key] + values + match priority case Some(p) => [p] case None => []
  }

  function Positions(header: seq<string>, names: seq<string>): (r: Option<seq<nat>>)
    ensures r.Some? <==> forall n | n in names :: n in header
    ensures r.Some? ==> |r.value| == |names|
    ensures r.Some? ==> forall i | 0 <= i < |names| :: PositionOf(header, names[i]) == Some(r.value[i])
  {
    if names == [] then Some([])
    else
      match (Positions(header, names[..|names| - 1]), PositionOf(header, names[|names| - 1]))
      case (Some(before), Some(last)) => Some(before + [last])
      case _ =>
        assert names == names[..|names| - 1] + [names[|names| - 1]];
        None
  }

  /** The layout, if the header has every wanted column. */
  function LayoutOf(header: seq<string>, key: string, values: seq<string>, priority: Option<string>): (r: Option<Layout>)
    ensures r.Some? <==> forall w | w in Wanted(key, values, priority) :: w in header
    ensures r.Some? ==> LaysOut(header, key, values, priority, r.value)
  {
    var last := match priority case Some(p) => PositionOf(header, p) case None => None;
    assert priority.Some? ==> priority.value in Wanted(key, values, priority);
    match (PositionOf(header, key), Positions(header, values))
    case (Some(k), Some(vs)) => if priority.Some? && last.None? then None else Some(Layout(k, vs, last))
    case _ => None
  }

  lemma OneLayout(header: seq<string>, key: string, values: seq<string>, priority: Option<string>, a: Layout)
    requires LaysOut(header, key, values, priority, a)
    ensures LayoutOf(header, key, values, priority) == Some(a)
  {
    forall w | w in Wanted(key, values, priority) ensures w in header {
      if w in values {
        var i :| 0 <= i < |values| && values[i] == w;
        assert PositionOf(header, values[i]) == Some(a.values[i]);
      }
    }
    var b := LayoutOf(header, key, values, priority).value;
    forall i | 0 <= i < |values| ensures a.values[i] == b.values[i] {
      assert PositionOf(header, values[i]) == Some(a.values[i]) && PositionOf(header, values[i]) == Some(b.values[i]);
    }
    assert a.values == b.values;
  }

  method FindColumns(dim: Dimension, header: seq<string>, key: string, values: seq<string>, priority: Option<string>)
    returns (r: Result<Layout, DimensionError>)
    ensures r.Ok? ==> LayoutOf(header, key, values, priority) == Some(r.value)
    ensures r.Err? ==> LayoutOf(header, key, values, priority).None?
    ensures r.Err? ==> exists i :: 0 <= i < |Wanted(key, values, priority)|
                         && var wanted := Wanted(key, values, priority);
                            wanted[i] !in header && (forall k | 0 <= k < i :: wanted[k] in header)
                            && r.error == MissingColumn(dim.id, wanted[i])
  {
    ghost var wanted := Wanted(key, values, priority);
    var keyAt := PositionOf(header, key);
    assert wanted[0] == key;
    if keyAt.None? {
      return Err(MissingColumn(dim.id, key));
    }
    var columns: seq<nat> := [];
    for i := 0 to |values|
      invariant |columns| == i
      invariant forall k | 0 <= k < i :: PositionOf(header, values[k]) == Some(columns[k])
      invariant forall k | 0 <= k <= i :: wanted[k] in header
    {
      assert wanted[i + 1] == values[i];
      var at := PositionOf(header, values[i]);
      if at.None? {
        return Err(MissingColumn(dim.id, values[i]));
      }
      columns := columns + [at.value];
    }
    var layout := Layout(keyAt.value, columns, None);
    if priority.Some? {
      assert wanted[|values| + 1] == priority.value;
      var at := PositionOf(header, priority.value);
      if at.None? {
        return Err(MissingColumn(dim.id, priority.value));
      }
      layout := layout.(priority := at);
    }
    OneLayout(header, key, values, priority, layout);
    return Ok(layout);
  }

  /** The rows of a file: None when it is empty, lacks a column, or has too many. */
  function FileRows(key: string, values: seq<string>, priority: Option<string>, lines: seq<string>): Option<seq<Row>> {
    if lines == [] then None
    else
      match LayoutOf(Split(lines[0]), key, values, priority)
      case None => None
      case Some(layout) =>
        if |RowsOf(layout, lines[1..])| <= 1_000_000 then Some(RowsOf(layout, lines[1..])) else None
  }

  /** `rows_from_csv`, given the file's lines without the blank ones. */
  method RowsFromCsv(dim: Dimension, key: string, values: seq<string>, priority: Option<string>, lines: seq<string>)
    returns (r: Result<seq<Row>, DimensionError>)
    ensures match FileRows(key, values, priority, lines) case Some(rows) => r == Ok(rows) case None => r.Err?
    ensures lines == [] ==> r == Err(FileRead(dim.id, "file is empty"))
    ensures lines != [] && r.Err? ==>
              if LayoutOf(Split(lines[0]), key, values, priority).None?
              then exists i :: 0 <= i < |Wanted(key, values, priority)|
                     && Wanted(key, values, priority)[i] !in Split(lines[0])
                     && r.error == MissingColumn(dim.id, Wanted(key, values, priority)[i])
              else r.error == TooManyRows(dim.id, 1_000_001, 1_000_000)
  {
    if lines == [] {
      return Err(FileRead(dim.id, "file is empty"));
    }
    var header := SplitCsvLine(lines[0]);
    var found := FindColumns(dim, header, key, values, priority);
    if found.Err? { return Err(found.error); }
    r := ReadRows(dim.id, found.value, lines[1..]);
  }

  /** The lines below the header. */
  method ReadRows(id: string, layout: Layout, lines: seq<string>) returns (r: Result<seq<Row>, DimensionError>)
    ensures r == if |RowsOf(layout, lines)| <= MAX_DIMENSION_ROWS then Ok(RowsOf(layout, lines))
                 else Err(TooManyRows(id, MAX_DIMENSION_ROWS + 1, MAX_DIMENSION_ROWS))
  {
    var out := [];
    for i := 0 to |lines|
      invariant out == RowsOf(layout, lines[..i]) && |out| <= MAX_DIMENSION_ROWS
    {
      var fields := SplitCsvLine(lines[i]);
      var row := RowOf(layout, fields);
      assert lines[..i + 1][..i] == lines[..i];
      if row.Some? {
        out := out + [row.value];
        if |out| > MAX_DIMENSION_ROWS {
          MoreRows(layout, lines, i + 1);
          return Err(TooManyRows(id, |out|, MAX_DIMENSION_ROWS));
        }
      }
    }
    assert lines[..|lines|] == lines;
    return Ok(out);
  }

  /** The rows of a file in two parts are those of the one and then those of the other. */
  lemma {:induction false} RowsOfParts(layout: Layout, a: seq<string>, b: seq<string>)
    ensures RowsOf(layout, a + b) == RowsOf(layout, a) + RowsOf(layout, b)
    decreases |b|
  {
    if b == [] {
      assert a + b == a;
    } else {
      var front := b[..|b| - 1];
      assert (a + b)[..|a + b| - 1] == a + front;
      RowsOfParts(layout, a, front);
    }
  }

  lemma {:induction false} MoreRows(layout: Layout, lines: seq<string>, n: nat)
    requires n <= |lines|
    ensures |RowsOf(layout, lines[..n])| <= |RowsOf(layout, lines)|
    decreases |lines|
  {
    if n < |lines| {
      MoreRows(layout, lines[..|lines| - 1], n);
      assert lines[..|lines| - 1][..n] == lines[..n];
    } else {
      assert lines[..n] == lines;
    }
  }

  /** The priority a record has: of its priority column, a number there that
      fits, or 0; 0 without the column. */
  ghost predicate PriorityRead(layout: Layout, record: seq<Written>, priority: int) {
    match layout.priority
    case None => priority == 0
    case Some(at) =>
      if at >= |record| then priority == 0
      else
        && (forall n | record[at].text == DecInt(n) && -I64_MAX - 1 <= n <= I64_MAX :: priority == n)
        && (priority != 0 ==> exists c | c in record[at].text :: IsDigit(c))
  }

  lemma PrioritiesRead(layout: Layout, record: seq<Written>, fields: seq<string>)
    requires |fields| == |record| && forall i | 0 <= i < |fields| :: fields[i] == record[i].text
    ensures PriorityRead(layout, record, PriorityOf(fields, layout.priority))
  {
    if layout.priority.Some? && layout.priority.value < |record| {
      var text := record[layout.priority.value].text;
      forall n | text == DecInt(n) && -I64_MAX - 1 <= n <= I64_MAX ensures PriorityOf(fields, layout.priority) == n {
        ParseSignedPrinted(n);
      }
      if PriorityOf(fields, layout.priority) != 0 { assert IsDigit(text[|text| - 1]) && text[|text| - 1] in text; }
    }
  }

  /** A record written to a reference file, quoted as need be, reads back; one too
      short for its key is no row, and values it is too short for are missing. */
  lemma RecordReadsBack(layout: Layout, record: seq<Written>)
    requires record != [] && AllAllowed(record) && !EndsWith(record[|record| - 1].text, "\r")
    ensures var row := RowOf(layout, Split(Render(record)));
            if layout.key >= |record| || record[layout.key].text == "" then row.None?
            else row.Some? && row.value.patterns == [record[layout.key].text]
                 && |row.value.values| == |layout.values| && PriorityRead(layout, record, row.value.priority)
                 && forall i | 0 <= i < |layout.values| ::
                      row.value.values[i]
                      == if layout.values[i] < |record| then Some(record[layout.values[i]].text) else None
  {
    CsvRoundTrip(record);
    PrioritiesRead(layout, record, Split(Render(record)));
  }
}
