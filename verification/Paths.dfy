/**
 Object keys of table files: percent-encoded partition values, the hive path
 they are joined into, and the version spliced in when a file is uploaded.

 A string cell is the UTF-8 bytes of its text. Encoded text is plain ASCII.
 */
module Paths {
  import opened Text

  // Percent-encoding, section 2.1 of RFC 3986

  predicate IsAsciiAlphanumeric(b: byte) {
    65 <= b <= 90 || 97 <= b <= 122 || 48 <= b <= 57
  }

  predicate IsUnreserved(b: byte) {
    IsAsciiAlphanumeric(b) || b == 46 || b == 95 || b == 45
  }

  function HexDigit(d: int): char
    requires 0 <= d < 16
  {
    if d < 10 then ('0' as int + d) as char else ('A' as int + d - 10) as char
  }

  function EncodedByte(b: byte): string {
    if IsUnreserved(b) then [b as char]
    else ['%', HexDigit(b as int / 16), HexDigit(b as int % 16)]
  }

  function Encoded(value: Bytes): string {
    if value == [] then "" else EncodedByte(value[0]) + Encoded(value[1..])
  }

  /** `encode_segment`. */
  method EncodeSegment(value: Bytes) returns (out: string)
    ensures out == Encoded(value)
  {
    out := "";
    for i := 0 to |value|
      invariant out == Encoded(value[..i])
    {
      EncodedSnoc(value[..i], value[i]);
      assert value[..i + 1] == value[..i] + [value[i]];
      if IsUnreserved(value[i]) {
        out := out + [value[i] as char];
      } else {
        out := out + ['%', HexDigit(value[i] as int / 16), HexDigit(value[i] as int % 16)];
      }
    }
    assert value[..|value|] == value;
  }

  lemma {:induction false} EncodedSnoc(value: Bytes, b: byte)
    ensures Encoded(value + [b]) == Encoded(value) + EncodedByte(b)
  {
    if value == [] {
      assert Encoded([b]) == EncodedByte(b) + Encoded([]);
    } else {
      EncodedSnoc(value[1..], b);
      assert (value + [b])[1..] == value[1..] + [b];
    }
  }

  predicate IsAscii(s: string) {
    forall c | c in s :: c as int < 128
  }

  /** The bytes of an ASCII string. */
  function AsciiBytes(s: string): (bytes: Bytes)
    requires IsAscii(s)
    ensures |bytes| == |s|
  {
    seq(|s|, i requires 0 <= i < |s| => assert s[i] in s; s[i] as int as byte)
  }

  function HexValue(b: byte): Option<int> {
    if 48 <= b <= 57 then Some(b as int - 48)
    else if 65 <= b <= 70 then Some(b as int - 55)
    else if 97 <= b <= 102 then Some(b as int - 87)
    else None
  }

  /** `u8::from_str_radix(_, 16)` on two bytes; a leading plus sign is allowed. */
  function HexPair(high: byte, low: byte): (value: Option<byte>) {
    var h := if high == 43 then Some(0) else HexValue(high);
    match (h, HexValue(low))
    case (Some(x), Some(y)) => Some((16 * x + y) as byte)
    case _ => None
  }

  /** What `urldecode` makes of the bytes of a key. */
  function Decoded(s: Bytes): Bytes {
    if s == [] then []
    else if s[0] == 37 && 2 < |s| then
      match HexPair(s[1], s[2])
      case Some(b) => [b] + Decoded(s[3..])
      case None => [s[0]] + Decoded(s[1..])
    else if s[0] == 43 then [32] + Decoded(s[1..])
    else [s[0]] + Decoded(s[1..])
  }

  /** The byte decoded at `i`, and how many bytes it takes up. */
  function DecodedUnit(s: Bytes, i: nat): (byte, nat)
    requires i < |s|
  {
    var pair := if s[i] == 37 && i + 2 < |s| then HexPair(s[i + 1], s[i + 2]) else None;
    if pair.Some? then (pair.value, 3) else (if s[i] == 43 then 32 else s[i], 1)
  }

  lemma DecodedStep(s: Bytes, i: nat, before: Bytes)
    requires i < |s|
    ensures var (b, n) := DecodedUnit(s, i);
            i + n <= |s| && before + Decoded(s[i..]) == before + [b] + Decoded(s[i + n..])
  {
    var rest := s[i..];
    assert rest[1..] == s[i + 1..];
    if 2 < |rest| { assert rest[3..] == s[i + 3..]; }
    var (b, n) := DecodedUnit(s, i);
    assert Decoded(rest) == [b] + Decoded(s[i + n..]);
  }

  /** `urldecode`, up to the final conversion of the bytes to text. */
  method UrlDecode(bytes: Bytes) returns (out: Bytes)
    ensures out == Decoded(bytes)
  {
    out := [];
    var i := 0;
    while i < |bytes|
      invariant 0 <= i <= |bytes|
      invariant Decoded(bytes) == out + Decoded(bytes[i..])
    {
      DecodedStep(bytes, i, out);
      if bytes[i] == 37 && i + 2 < |bytes| {
        match HexPair(bytes[i + 1], bytes[i + 2]) {
          case Some(b) =>
            out := out + [b];
            i := i + 3;
          case None =>
            out := out + [bytes[i]];
            i := i + 1;
        }
      } else if bytes[i] == 43 {
        out := out + [32];
        i := i + 1;
      } else {
        out := out + [bytes[i]];
        i := i + 1;
      }
    }
  }

  lemma {:induction false} EncodedIsAscii(value: Bytes)
    ensures IsAscii(Encoded(value)) && '/' !in Encoded(value)
  {
    if value != [] { EncodedIsAscii(value[1..]); }
  }

  lemma DecodeOneByte(b: byte, rest: Bytes)
    ensures IsAscii(EncodedByte(b))
    ensures Decoded(AsciiBytes(EncodedByte(b)) + rest) == [b] + Decoded(rest)
  {
    var s := AsciiBytes(EncodedByte(b)) + rest;
    if IsUnreserved(b) {
      assert s[1..] == rest;
    } else {
      assert s[3..] == rest;
    }
  }

  /** Decoding undoes encoding on every byte string. */
  lemma {:induction false} DecodeInvertsEncode(value: Bytes)
    ensures IsAscii(Encoded(value))
    ensures Decoded(AsciiBytes(Encoded(value))) == value
  {
    EncodedIsAscii(value);
    if value != [] {
      DecodeInvertsEncode(value[1..]);
      DecodeOneByte(value[0], AsciiBytes(Encoded(value[1..])));
      assert AsciiBytes(Encoded(value))
          == AsciiBytes(EncodedByte(value[0])) + AsciiBytes(Encoded(value[1..]));
    }
  }

  // Escaping, byte by byte

  /** `[A-Za-z0-9._-]`. */
  predicate PlainChar(c: char) {
    'A' <= c <= 'Z' || 'a' <= c <= 'z' || '0' <= c <= '9' || c == '.' || c == '_' || c == '-'
  }

  /** A plain byte stands for itself, any other is escaped in upper case. */
  lemma EncodedByteIs(b: byte)
    ensures Encoded([b])
         == if PlainChar(b as char) then [b as char]
            else ['%', "0123456789ABCDEF"[b as int / 16], "0123456789ABCDEF"[b as int % 16]]
  {
    assert Encoded([b]) == EncodedByte(b) + Encoded([]);
  }

  lemma EncodedCons(b: byte, rest: Bytes)
    ensures Encoded([b] + rest) == EncodedByte(b) + Encoded(rest)
  {
    assert ([b] + rest)[1..] == rest;
  }

  lemma Regrouped<T>(a: seq<T>, b: seq<T>, c: seq<T>)
    ensures (a + b) + c == a + (b + c)
  {
  }

  lemma {:induction false} EncodedAppend(a: Bytes, b: Bytes)
    ensures Encoded(a + b) == Encoded(a) + Encoded(b)
  {
    if a == [] {
      assert a + b == b;
    } else {
      EncodedAppend(a[1..], b);
      Regrouped([a[0]], a[1..], b);
      EncodedCons(a[0], a[1..] + b);
      Regrouped(EncodedByte(a[0]), Encoded(a[1..]), Encoded(b));
      assert [a[0]] + a[1..] == a;
    }
  }

  /** A value is its own segment iff it has plain characters only. */
  lemma {:induction false} EncodedIsItself(value: Bytes)
    ensures Encoded(value) == AsText(value) <==> forall b | b in value :: PlainChar(b as char)
    ensures |Encoded(value)| >= |value|
  {
    if value != [] {
      var first, rest := value[0], value[1..];
      EncodedIsItself(rest);
      assert value == [first] + rest;
      assert AsText(value) == [first as char] + AsText(rest);
      if PlainChar(first as char) {
        assert Encoded(value) == [first as char] + Encoded(rest);
        assert Encoded(value)[1..] == Encoded(rest) && AsText(value)[1..] == AsText(rest);
        assert forall b :: b in value <==> b == first || b in rest;
      } else {
        assert |Encoded(value)| > |value| && first in value;
      }
    }
  }

  function AsText(value: Bytes): (s: string)
    ensures |s| == |value|
  {
    seq(|value|, i requires 0 <= i < |value| => value[i] as char)
  }

  /** The byte of a hexadecimal digit, in either case. */
  function HexByte(d: int, upper: bool): byte
    requires 0 <= d < 16
  {
    if upper then "0123456789ABCDEF"[d] as int as byte else "0123456789abcdef"[d] as int as byte
  }

  lemma HexByteValue(d: int, upper: bool)
    requires 0 <= d < 16
    ensures HexByte(d, upper) != 43 && HexValue(HexByte(d, upper)) == Some(d)
  {
  }

  /** An escape decodes to its byte, whatever the case of its digits. */
  lemma EscapeDecodes(high: int, low: int, upperHigh: bool, upperLow: bool, rest: Bytes)
    requires 0 <= high < 16 && 0 <= low < 16
    ensures Decoded(['%' as int as byte, HexByte(high, upperHigh), HexByte(low, upperLow)] + rest)
         == [(16 * high + low) as byte] + Decoded(rest)
  {
    HexByteValue(high, upperHigh);
    HexByteValue(low, upperLow);
    var s: Bytes := ['%' as int as byte, HexByte(high, upperHigh), HexByte(low, upperLow)] + rest;
    assert s[3..] == rest;
  }

  predicate IsHexChar(b: byte) {
    '0' <= b as char <= '9' || 'A' <= b as char <= 'F' || 'a' <= b as char <= 'f'
  }

  /** Two digits the parser takes: the first may be a plus sign. */
  predicate IsEscape(rest: Bytes) {
    2 <= |rest| && (IsHexChar(rest[0]) || rest[0] == '+' as int as byte) && IsHexChar(rest[1])
  }

  /** A percent sign no escape follows stays, a plus sign is a space, and any other
      byte is itself. */
  lemma OthersDecode(b: byte, rest: Bytes)
    requires b == '%' as int as byte ==> !IsEscape(rest)
    ensures Decoded([b] + rest) == [if b == '+' as int as byte then ' ' as int as byte else b] + Decoded(rest)
  {
    var s := [b] + rest;
    assert s[1..] == rest;
    if 2 < |s| { assert s[1] == rest[0] && s[2] == rest[1]; }
  }

  /** Words as a query string has them: escaped, and joined by plus signs. */
  function QueryText(words: seq<Bytes>): string {
    if words == [] then ""
    else if |words| == 1 then Encoded(words[0])
    else Encoded(words[0]) + "+" + QueryText(words[1..])
  }

  function Spaced(words: seq<Bytes>): Bytes {
    if words == [] then []
    else if |words| == 1 then words[0]
    else words[0] + [' ' as int as byte] + Spaced(words[1..])
  }

  lemma AsciiBytesAppend(a: string, b: string)
    requires IsAscii(a) && IsAscii(b)
    ensures IsAscii(a + b) && AsciiBytes(a + b) == AsciiBytes(a) + AsciiBytes(b)
  {
    var c := a + b;
    forall x | x in c ensures x as int < 128 { assert x in a || x in b; }
    assert |AsciiBytes(c)| == |AsciiBytes(a) + AsciiBytes(b)|;
  }

  lemma {:induction false} DecodeInFront(value: Bytes, rest: Bytes)
    ensures IsAscii(Encoded(value))
    ensures Decoded(AsciiBytes(Encoded(value)) + rest) == value + Decoded(rest)
  {
    EncodedIsAscii(value);
    if value == [] {
      assert AsciiBytes(Encoded(value)) + rest == rest;
    } else {
      var first, more := value[0], value[1..];
      DecodeInFront(more, rest);
      DecodeOneByte(first, AsciiBytes(Encoded(more)) + rest);
      AsciiBytesAppend(EncodedByte(first), Encoded(more));
      Regrouped(AsciiBytes(EncodedByte(first)), AsciiBytes(Encoded(more)), rest);
      Regrouped([first], more, Decoded(rest));
      assert [first] + more == value;
    }
  }

  /** A key from an event, written as a query string, reads with its spaces back. */
  lemma {:induction false} QueryTextDecodes(words: seq<Bytes>)
    ensures IsAscii(QueryText(words)) && Decoded(AsciiBytes(QueryText(words))) == Spaced(words)
  {
    if |words| == 1 {
      DecodeInvertsEncode(words[0]);
    } else if |words| > 1 {
      QueryTextDecodes(words[1..]);
      OneMoreWord(words[0], QueryText(words[1..]));
    }
  }

  lemma OneMoreWord(word: Bytes, more: string)
    requires IsAscii(more)
    ensures var s := Encoded(word) + "+" + more;
            IsAscii(s) && Decoded(AsciiBytes(s)) == word + [' ' as int as byte] + Decoded(AsciiBytes(more))
  {
    EncodedIsAscii(word);
    AsciiBytesAppend("+", more);
    AsciiBytesAppend(Encoded(word), "+" + more);
    Regrouped(Encoded(word), "+", more);
    DecodeInFront(word, AsciiBytes("+" + more));
    OthersDecode('+' as int as byte, AsciiBytes(more));
    assert AsciiBytes("+") == ['+' as int as byte];
    Regrouped(word, [' ' as int as byte], Decoded(AsciiBytes(more)));
  }

  // Partition cells and paths

  /** A date as chrono writes it with `%Y-%m-%d`; years beyond four digits have a sign. */
  type DateText = s: string | forall c | c in s :: IsDigit(c) || c == '-' || c == '+'

  /** One partition-key cell. Nulls are rejected before cells are read, and a
      date is known by its text. A date out of chrono's range is unsupported. */
  datatype Cell =
    | IntCell(i: int)
    | BoolCell(b: bool)
    | DateCell(d: DateText)
    | TextCell(t: Bytes)
    | UnsupportedCell
  {
    function Type(): CellType {
      match this
      case IntCell(_) => IntType
      case BoolCell(_) => BoolType
      case DateCell(_) => DateType
      case TextCell(_) => TextType
      case UnsupportedCell => OtherType
    }
  }

  datatype CellType = IntType | BoolType | DateType | TextType | OtherType

  function Rendered(cell: Cell): string
    requires !cell.UnsupportedCell?
  {
    match cell
    case IntCell(n) => DecInt(n)
    case BoolCell(b) => if b then "true" else "false"
    case DateCell(d) => d
    case TextCell(t) => Encoded(t)
  }

  /** `segment_value`. */
  method SegmentValue(cell: Cell) returns (r: Result<string, string>)
    ensures r.Err? <==> cell.UnsupportedCell?
    ensures r.Ok? ==> r.value == Rendered(cell)
  {
    match cell {
      case IntCell(n) => r := Ok(DecInt(n));
      case BoolCell(b) => r := Ok(if b then "true" else "false");
      case DateCell(d) => r := Ok(d);
      case TextCell(t) =>
        var s := EncodeSegment(t);
        r := Ok(s);
      case UnsupportedCell => r := Err("unsupported partition key value");
    }
  }

  lemma RenderedHasNoSlash(cell: Cell)
    requires !cell.UnsupportedCell?
    ensures '/' !in Rendered(cell)
  {
    match cell
    case IntCell(n) => DecIsDigits(if n < 0 then -n else n);
    case BoolCell(b) =>
    case DateCell(d) =>
    case TextCell(t) => EncodedIsAscii(t);
  }

  /** Inverse of `Rendered` for a column of a known type. */
  function ReadCell(s: string, t: CellType): Option<Cell> {
    match t
    case IntType =>
      if StartsWith(s, "-") then
        (match ParseDigits(s[1..]) case Some(n) => Some(IntCell(0 - n as int)) case None => None)
      else
        (match ParseDigits(s) case Some(n) => Some(IntCell(n)) case None => None)
    case BoolType => if s == "true" then Some(BoolCell(true)) else if s == "false" then Some(BoolCell(false)) else None
    case DateType => if forall c | c in s :: IsDigit(c) || c == '-' || c == '+' then Some(DateCell(s)) else None
    case TextType => if IsAscii(s) then Some(TextCell(Decoded(AsciiBytes(s)))) else None
    case OtherType => None
  }

  function ParseDigits(s: string): Option<nat> {
    if s != "" && AllDigits(s) then Some(DigitsValue(s)) else None
  }

  lemma ReadRendered(cell: Cell)
    requires !cell.UnsupportedCell?
    ensures ReadCell(Rendered(cell), cell.Type()) == Some(cell)
  {
    match cell
    case IntCell(n) =>
      DecIsDigits(if n < 0 then -n else n);
      assert n < 0 ==> Rendered(cell)[1..] == Dec(-n);
      assert n >= 0 ==> IsDigit(Rendered(cell)[0]);
    case BoolCell(b) =>
    case DateCell(d) =>
    case TextCell(t) => DecodeInvertsEncode(t);
  }

  predicate Renderable(columns: seq<string>, cells: seq<Cell>) {
    |columns| == |cells| && forall i | 0 <= i < |cells| :: !cells[i].UnsupportedCell?
  }

  /** `<k>=<v>/` for every partition column. */
  function HivePath(columns: seq<string>, cells: seq<Cell>): string
    requires Renderable(columns, cells)
  {
    if columns == [] then ""
    else columns[0] + "=" + Rendered(cells[0]) + "/" + HivePath(columns[1..], cells[1..])
  }

  function VersionPrefix(version: nat): string {
    "v" + Dec(version) + "/"
  }

  /** Key of one output of a mapping, relative to its table's prefix. */
  function FileKey(version: nat, columns: seq<string>, cells: seq<Cell>, mapping: string): string
    requires Renderable(columns, cells)
  {
    VersionPrefix(version) + (HivePath(columns, cells) + (mapping + ".parquet"))
  }

  /** The segments joined by `/`, as `produce_partitions` builds them. */
  function Joined(segments: seq<string>): string {
    if segments == [] then "" else if |segments| == 1 then segments[0]
    else segments[0] + "/" + Joined(segments[1..])
  }

  function Segments(columns: seq<string>, cells: seq<Cell>): (s: seq<string>)
    requires Renderable(columns, cells)
    ensures |s| == |columns|
  {
    if columns == [] then []
    else [columns[0] + "=" + Rendered(cells[0])] + Segments(columns[1..], cells[1..])
  }

  lemma {:induction false} JoinedSegments(columns: seq<string>, cells: seq<Cell>)
    requires Renderable(columns, cells) && columns != []
    ensures Joined(Segments(columns, cells)) + "/" == HivePath(columns, cells)
  {
    var segments := Segments(columns, cells);
    assert segments[1..] == Segments(columns[1..], cells[1..]);
    if |columns| > 1 { JoinedSegments(columns[1..], cells[1..]); }
  }

  /** Key of a partition output: the table, its hive path, and the mapping. */
  function PartitionKey(table: string, columns: seq<string>, cells: seq<Cell>, mapping: string): string
    requires Renderable(columns, cells)
  {
    table + "/" + (HivePath(columns, cells) + (mapping + ".parquet"))
  }

  // Producing and uploading partitions

  /** Rows sharing one tuple of partition cells, and their Parquet encoding. */
  datatype Group = Group(cells: seq<Cell>, data: Bytes)

  /** A mapping's output frame: null counts of the columns it has, the Parquet
      encoding of the whole, and its rows grouped by the partition columns. */
  datatype Frame = Frame(nulls: map<string, nat>, whole: Bytes, groups: seq<Group>)

  datatype PartitionOutput = PartitionOutput(key: string, data: Bytes)

  datatype PartitionError = MissingColumn(column: string) | NullKeys(column: string, count: nat) | BadCell

  predicate Partitionable(frame: Frame, columns: seq<string>) {
    columns == []
    || ((forall c | c in columns :: c in frame.nulls && frame.nulls[c] == 0)
        && forall g | g in frame.groups :: Renderable(columns, g.cells))
  }

  /** The groups a frame is written as; one whole-frame group without keys. */
  function GroupsOf(frame: Frame, columns: seq<string>): seq<Group> {
    if columns == [] then [Group([], frame.whole)] else frame.groups
  }

  /** `produce_partitions`: it fails exactly on a missing column, a null key or
      an unsupported cell, and otherwise writes one file per group. */
  method ProducePartitions(frame: Frame, table: string, columns: seq<string>, mapping: string)
    returns (r: Result<seq<PartitionOutput>, PartitionError>)
    requires forall g | g in frame.groups :: |g.cells| == |columns|
    ensures r.Ok? <==> Partitionable(frame, columns)
    ensures r.Ok? ==> |r.value| == |GroupsOf(frame, columns)|
    ensures r.Ok? ==> forall i | 0 <= i < |r.value| ::
                        Filed(table, columns, mapping, GroupsOf(frame, columns)[i], r.value[i])
    ensures r.Err? && r.error.NullKeys? ==>
              r.error.column in columns && r.error.column in frame.nulls
              && frame.nulls[r.error.column] == r.error.count > 0
    ensures r.Err? && r.error.MissingColumn? ==> r.error.column in columns && r.error.column !in frame.nulls
  {
    if columns == [] {
      var only := GroupsOf(frame, columns)[0];
      assert PartitionKey(table, columns, only.cells, mapping) == table + "/" + (mapping + ".parquet");
      return Ok([PartitionOutput(table + "/" + (mapping + ".parquet"), frame.whole)]);
    }
    for i := 0 to |columns|
      invariant forall c | c in columns[..i] :: c in frame.nulls && frame.nulls[c] == 0
    {
      if columns[i] !in frame.nulls {
        return Err(MissingColumn(columns[i]));
      }
      if frame.nulls[columns[i]] > 0 {
        return Err(NullKeys(columns[i], frame.nulls[columns[i]]));
      }
    }
    var out := [];
    for n := 0 to |frame.groups|
      invariant |out| == n
      invariant forall i | 0 <= i < n :: Filed(table, columns, mapping, frame.groups[i], out[i])
    {
      var group := frame.groups[n];
      assert group in frame.groups;
      var key := GroupKey(table, columns, group.cells, mapping);
      if key.Err? {
        return Err(BadCell);
      }
      out := out + [PartitionOutput(key.value, group.data)];
    }
    return Ok(out);
  }

  /** A group's output, under its own hive path. */
  predicate Filed(table: string, columns: seq<string>, mapping: string, g: Group, output: PartitionOutput) {
    Renderable(columns, g.cells) && output == PartitionOutput(PartitionKey(table, columns, g.cells, mapping), g.data)
  }

  /** One segment per key column; fails on a cell that cannot be rendered. */
  method GroupKey(table: string, columns: seq<string>, cells: seq<Cell>, mapping: string)
    returns (r: Result<string, string>)
    requires |cells| == |columns| && columns != []
    ensures r.Ok? <==> Renderable(columns, cells)
    ensures r.Ok? ==> r.value == PartitionKey(table, columns, cells, mapping)
  {
    var segments := [];
    for k := 0 to |columns|
      invariant forall i | 0 <= i < k :: !cells[i].UnsupportedCell?
      invariant |segments| == k
      invariant forall i | 0 <= i < k :: segments[i] == columns[i] + "=" + Rendered(cells[i])
    {
      var segment := SegmentValue(cells[k]);
      if segment.Err? {
        return Err(segment.error);
      }
      segments := segments + [columns[k] + "=" + segment.value];
    }
    SegmentsAre(columns, cells, segments);
    JoinedKey(table, columns, cells, mapping);
    return Ok(table + "/" + Joined(segments) + "/" + mapping + ".parquet");
  }

  lemma JoinedKey(table: string, columns: seq<string>, cells: seq<Cell>, mapping: string)
    requires Renderable(columns, cells) && columns != []
    ensures table + "/" + Joined(Segments(columns, cells)) + "/" + mapping + ".parquet"
         == PartitionKey(table, columns, cells, mapping)
  {
    JoinedSegments(columns, cells);
    var joined := Joined(Segments(columns, cells));
    assert table + "/" + joined + "/" + mapping + ".parquet" == table + "/" + ((joined + "/") + (mapping + ".parquet"));
  }

  lemma {:induction false} SegmentsAre(columns: seq<string>, cells: seq<Cell>, segments: seq<string>)
    requires Renderable(columns, cells) && |segments| == |columns|
    requires forall i | 0 <= i < |columns| :: segments[i] == columns[i] + "=" + Rendered(cells[i])
    ensures segments == Segments(columns, cells)
  {
    if columns != [] { SegmentsAre(columns[1..], cells[1..], segments[1..]); }
  }

  /** `split_once('/')`. */
  function SplitOnce(s: string): Option<(string, string)> {
    var i := IndexOf(s, '/');
    if i < |s| then Some((s[..i], s[i + 1..])) else None
  }

  /** Where the upload of a partition output goes, after the pipeline prefix,
      and the table-relative key recorded for it. */
  function UploadTarget(partitionKey: string, version: nat): Option<(string, string)> {
    match SplitOnce(partitionKey)
    case None => None
    case Some((table, rest)) =>
      var relative := VersionPrefix(version) + rest;
      Some((table + "/" + relative, relative))
  }

  lemma SplitPartitionKey(table: string, columns: seq<string>, cells: seq<Cell>, mapping: string)
    requires Renderable(columns, cells) && '/' !in table
    ensures SplitOnce(PartitionKey(table, columns, cells, mapping))
         == Some((table, HivePath(columns, cells) + (mapping + ".parquet")))
  {
    var rest := HivePath(columns, cells) + (mapping + ".parquet");
    IndexOfAppended(table, '/', rest);
    var key := table + "/" + rest;
    assert key == table + ['/'] + rest;
    assert key[..|table|] == table && key[|table| + 1..] == rest;
  }

  /** The object a manifest entry names is the object that was uploaded. */
  predicate LandsInTable(table: string, columns: seq<string>, cells: seq<Cell>, mapping: string, version: nat)
    requires Renderable(columns, cells)
  {
    match UploadTarget(PartitionKey(table, columns, cells, mapping), version)
    case None => false
    case Some((full, relative)) => full == table + "/" + relative
  }

  /** Where the uploads of a table go whose id has a slash: under the part before it. */
  lemma SplitNestedKey(head: string, tail: string, columns: seq<string>, cells: seq<Cell>, mapping: string)
    requires Renderable(columns, cells) && '/' !in head
    ensures SplitOnce(PartitionKey(head + "/" + tail, columns, cells, mapping))
         == Some((head, tail + "/" + (HivePath(columns, cells) + (mapping + ".parquet"))))
  {
    var rest := tail + "/" + (HivePath(columns, cells) + (mapping + ".parquet"));
    assert PartitionKey(head + "/" + tail, columns, cells, mapping) == head + ['/'] + rest;
    IndexOfAppended(head, '/', rest);
    CutAfter(head, '/', rest);
  }

  lemma NestedMisses(head: string, tail: string, columns: seq<string>, cells: seq<Cell>, mapping: string, version: nat)
    requires Renderable(columns, cells) && '/' !in head
    ensures !LandsInTable(head + "/" + tail, columns, cells, mapping, version)
  {
    SplitNestedKey(head, tail, columns, cells, mapping);
    var relative := VersionPrefix(version) + (tail + "/" + (HivePath(columns, cells) + (mapping + ".parquet")));
    assert |head + "/" + relative| < |head + "/" + tail + "/" + relative|;
  }

  /** Uploaded files land under their own table's prefix exactly when the table
      id has no slash in it. */
  lemma LandsInTableIff(table: string, columns: seq<string>, cells: seq<Cell>, mapping: string, version: nat)
    requires Renderable(columns, cells)
    ensures LandsInTable(table, columns, cells, mapping, version) <==> '/' !in table
  {
    if '/' !in table {
      SplitPartitionKey(table, columns, cells, mapping);
    } else {
      var i := IndexOf(table, '/');
      HasSlash(table);
      assert table == table[..i] + "/" + table[i + 1..];
      NestedMisses(table[..i], table[i + 1..], columns, cells, mapping, version);
    }
  }

  lemma HasSlash(table: string)
    requires '/' in table
    ensures IndexOf(table, '/') < |table|
  {
    assert table[..|table|] == table;
  }

  /** The part of a table's id that ends up in the keys recorded for its files. */
  function Tail(table: string): string {
    var i := IndexOf(table, '/');
    if i < |table| then table[i + 1..] + "/" else ""
  }

  /** The key recorded for an upload, whatever the table's id. */
  function RecordedKey(table: string, version: nat, columns: seq<string>, cells: seq<Cell>, mapping: string): string
    requires Renderable(columns, cells)
  {
    VersionPrefix(version) + (Tail(table) + (HivePath(columns, cells) + (mapping + ".parquet")))
  }

  lemma RecordedIs(table: string, version: nat, columns: seq<string>, cells: seq<Cell>, mapping: string)
    requires Renderable(columns, cells)
    ensures var target := UploadTarget(PartitionKey(table, columns, cells, mapping), version);
            target.Some? && target.value.1 == RecordedKey(table, version, columns, cells, mapping)
    ensures '/' !in table ==> RecordedKey(table, version, columns, cells, mapping) == FileKey(version, columns, cells, mapping)
  {
    var rest := HivePath(columns, cells) + (mapping + ".parquet");
    var i := IndexOf(table, '/');
    if '/' !in table {
      SplitPartitionKey(table, columns, cells, mapping);
      assert "" + rest == rest;
    } else {
      HasSlash(table);
      assert table == table[..i] + "/" + table[i + 1..];
      SplitNestedKey(table[..i], table[i + 1..], columns, cells, mapping);
    }
  }

  /** Keys recorded for one table are equal only where file keys are. */
  lemma SameRecorded(table: string, version: nat, columns: seq<string>, a: seq<Cell>, b: seq<Cell>, m: string, n: string)
    requires Renderable(columns, a) && Renderable(columns, b)
    requires RecordedKey(table, version, columns, a, m) == RecordedKey(table, version, columns, b, n)
    ensures FileKey(version, columns, a, m) == FileKey(version, columns, b, n)
  {
    var restA, restB := HivePath(columns, a) + (m + ".parquet"), HivePath(columns, b) + (n + ".parquet");
    CutHead(VersionPrefix(version), Tail(table) + restA, Tail(table) + restB);
    CutHead(Tail(table), restA, restB);
  }

  lemma CutHead(head: string, x: string, y: string)
    requires head + x == head + y
    ensures x == y
  {
    assert (head + x)[|head|..] == x && (head + y)[|head|..] == y;
  }

  /** What a reader gets from the key of a file: its version, the partition
      tuple, and the mapping that wrote it. */
  function ReadHive(types: seq<CellType>, columns: seq<string>, s: string): Option<(seq<Cell>, string)>
    requires |types| == |columns|
  {
    if columns == [] then Some(([], s))
    else if !StartsWith(s, columns[0] + "=") then None
    else
      match ReadSegment(s[|columns[0]| + 1..], types[0])
      case None => None
      case Some((cell, tail)) =>
        match ReadHive(types[1..], columns[1..], tail)
        case Some((cells, rest)) => Some(([cell] + cells, rest))
        case None => None
  }

  /** One cell up to the next slash, and what follows the slash. */
  function ReadSegment(s: string, t: CellType): Option<(Cell, string)> {
    var i := IndexOf(s, '/');
    if i == |s| then None else
    match ReadCell(s[..i], t)
    case Some(cell) => Some((cell, s[i + 1..]))
    case None => None
  }

  function ReadFileKey(types: seq<CellType>, columns: seq<string>, key: string): Option<(nat, seq<Cell>, string)>
    requires |types| == |columns|
  {
    match KeyVersion(key)
    case None => None
    case Some(version) =>
      match ReadHive(types, columns, key[|VersionPrefix(version)|..])
      case Some((cells, file)) =>
        if EndsWith(file, ".parquet") then Some((version, cells, file[..|file| - 8])) else None
      case None => None
  }

  /** The version a data file was written under. */
  function KeyVersion(key: string): (version: Option<nat>)
    ensures version.Some? ==> VersionPrefix(version.value) <= key
  {
    if StartsWith(key, "v") then
      var i := IndexOf(key, '/');
      match ParseDigits(key[1..if i == 0 then 1 else i])
      case None => None
      case Some(n) => if StartsWith(key, VersionPrefix(n)) then Some(n) else None
    else None
  }

  lemma KeyVersionOf(version: nat, rest: string)
    ensures KeyVersion(VersionPrefix(version) + rest) == Some(version)
  {
    var key := VersionPrefix(version) + rest;
    DecIsDigits(version);
    var head := "v" + Dec(version);
    assert '/' !in head;
    assert key == head + ['/'] + rest;
    IndexOfAppended(head, '/', rest);
    assert key[1..|head|] == Dec(version);
  }

  function TypesOf(cells: seq<Cell>): (types: seq<CellType>)
    ensures |types| == |cells|
  {
    if cells == [] then [] else [cells[0].Type()] + TypesOf(cells[1..])
  }

  lemma HiveUnfolds(columns: seq<string>, cells: seq<Cell>, rest: string)
    requires Renderable(columns, cells) && columns != []
    ensures var s := HivePath(columns, cells) + rest;
            var head := columns[0] + "=";
            head <= s
            && s[|head|..] == Rendered(cells[0]) + ['/'] + (HivePath(columns[1..], cells[1..]) + rest)
  {
    Regroup(columns[0] + "=", Rendered(cells[0]), HivePath(columns[1..], cells[1..]), rest);
  }

  lemma Regroup(a: string, b: string, c: string, d: string)
    ensures var s := (a + b + "/" + c) + d;
            a <= s && s[|a|..] == b + ['/'] + (c + d)
  {
    assert (a + b + "/" + c) + d == a + (b + ['/'] + (c + d));
  }

  lemma {:induction false} ReadHiveBack(columns: seq<string>, cells: seq<Cell>, rest: string)
    requires Renderable(columns, cells)
    ensures ReadHive(TypesOf(cells), columns, HivePath(columns, cells) + rest) == Some((cells, rest))
  {
    if columns == [] {
      assert HivePath(columns, cells) + rest == rest;
    } else {
      assert cells == [cells[0]] + cells[1..];
      ReadHiveBack(columns[1..], cells[1..], rest);
      HiveUnfolds(columns, cells, rest);
      ReadHiveStep(TypesOf(cells), columns, HivePath(columns, cells) + rest, cells[0],
                   HivePath(columns[1..], cells[1..]) + rest, cells[1..], rest);
    }
  }

  lemma ReadHiveStep(types: seq<CellType>, columns: seq<string>, s: string, cell: Cell, more: string,
                     cells: seq<Cell>, rest: string)
    requires |types| == |columns| && columns != [] && !cell.UnsupportedCell? && types[0] == cell.Type()
    requires columns[0] + "=" <= s && s[|columns[0]| + 1..] == Rendered(cell) + ['/'] + more
    requires ReadHive(types[1..], columns[1..], more) == Some((cells, rest))
    ensures ReadHive(types, columns, s) == Some(([cell] + cells, rest))
  {
    ReadSegmentBack(cell, more);
  }

  lemma ReadSegmentBack(cell: Cell, more: string)
    requires !cell.UnsupportedCell?
    ensures ReadSegment(Rendered(cell) + ['/'] + more, cell.Type()) == Some((cell, more))
  {
    var value := Rendered(cell);
    RenderedHasNoSlash(cell);
    IndexOfAppended(value, '/', more);
    CutAfter(value, '/', more);
    ReadRendered(cell);
  }

  /** Version, partition tuple and mapping can be read back from any file key. */
  lemma FileKeyReadsBack(version: nat, columns: seq<string>, cells: seq<Cell>, mapping: string)
    requires Renderable(columns, cells)
    ensures ReadFileKey(TypesOf(cells), columns, FileKey(version, columns, cells, mapping))
         == Some((version, cells, mapping))
  {
    var rest := HivePath(columns, cells) + (mapping + ".parquet");
    var key := FileKey(version, columns, cells, mapping);
    KeyVersionOf(version, rest);
    assert key[|VersionPrefix(version)|..] == rest;
    ReadHiveBack(columns, cells, mapping + ".parquet");
    assert (mapping + ".parquet")[..|mapping|] == mapping;
  }

  /** Distinct (tuple, mapping) pairs of one table never share an object, and
      neither do two versions. Columns have one type each. */
  lemma FileKeysDistinct(v: nat, w: nat, columns: seq<string>, a: seq<Cell>, b: seq<Cell>, m: string, n: string)
    requires Renderable(columns, a) && Renderable(columns, b) && TypesOf(a) == TypesOf(b)
    requires FileKey(v, columns, a, m) == FileKey(w, columns, b, n)
    ensures v == w && a == b && m == n
  {
    FileKeyReadsBack(v, columns, a, m);
    FileKeyReadsBack(w, columns, b, n);
  }

  lemma {:induction false} SameHivePath(columns: seq<string>, a: seq<Cell>, b: seq<Cell>, x: string, y: string)
    requires Renderable(columns, a) && Renderable(columns, b)
    requires HivePath(columns, a) + x == HivePath(columns, b) + y
    ensures x == y
  {
    if columns == [] {
      assert HivePath(columns, a) + x == x && HivePath(columns, b) + y == y;
    } else {
      var moreA, moreB := HivePath(columns[1..], a[1..]) + x, HivePath(columns[1..], b[1..]) + y;
      HiveUnfolds(columns, a, x);
      HiveUnfolds(columns, b, y);
      RenderedHasNoSlash(a[0]);
      RenderedHasNoSlash(b[0]);
      SplitAtDelimiter(Rendered(a[0]), moreA, Rendered(b[0]), moreB, '/');
      SameHivePath(columns[1..], a[1..], b[1..], x, y);
    }
  }

  /** Files of two mappings differ even if a column changed type in between. */
  lemma FileKeyTellsMapping(version: nat, columns: seq<string>, a: seq<Cell>, b: seq<Cell>, m: string, n: string)
    requires Renderable(columns, a) && Renderable(columns, b)
    requires FileKey(version, columns, a, m) == FileKey(version, columns, b, n)
    ensures m == n
  {
    var s, t := FileKey(version, columns, a, m), FileKey(version, columns, b, n);
    var p := |VersionPrefix(version)|;
    assert s[p..] == HivePath(columns, a) + (m + ".parquet");
    assert t[p..] == HivePath(columns, b) + (n + ".parquet");
    SameHivePath(columns, a, b, m + ".parquet", n + ".parquet");
    assert (m + ".parquet")[..|m|] == m && (n + ".parquet")[..|n|] == n;
    assert |m| == |n|;
  }
}
