/**
 Paths into JSON records, such as `request.headers.User-Agent[0]`: compiling
 them to steps, printing steps back, and following them through a record.
 `usize` is taken to be 64 bits.
 */
module JsonPath {
  import opened Text

  datatype Step = Key(name: string) | Index(at: nat)

  datatype PathError = MalformedIndex(path: string) | EmptyPath(path: string)

  /** The key read so far, if any, as a step. */
  function Flush(cur: string): seq<Step> {
    if cur == "" then [] else [Key(cur)]
  }

  function LeadingDigits(s: string): (n: nat)
    ensures n <= |s| && AllDigits(s[..n]) && (n < |s| ==> !IsDigit(s[n]))
  {
    if s == "" || !IsDigit(s[0]) then 0
    else
      var n := 1 + LeadingDigits(s[1..]);
      assert s[..n] == [s[0]] + s[1..][..n - 1];
      n
  }

  function Prepend(steps: seq<Step>, rest: Option<seq<Step>>): Option<seq<Step>> {
    match rest
    case None => None
    case Some(more) => Some(steps + more)
  }

  /** The index that starts after a `[`, and how many digits it has. */
  function IndexAt(s: string): (r: Option<(nat, nat)>)
    ensures r.Some? ==> r.value.1 < |s|
  {
    var n := LeadingDigits(s);
    if n == |s| || s[n] != ']' then None
    else match ParseUnsigned(s[..n])
         case None => None
         case Some(at) => Some((at, n))
  }

  /** The steps of a path when `cur` has been read of a key; None if an index
      is not closed, not a number, or too large. */
  function Read(path: string, cur: string): Option<seq<Step>>
    decreases |path|
  {
    if path == "" then Some(Flush(cur))
    else if path[0] == '.' then Prepend(Flush(cur), Read(path[1..], ""))
    else if path[0] == '[' then
      match IndexAt(path[1..])
      case None => None
      case Some((at, n)) => Prepend(Flush(cur) + [Index(at)], Read(path[n + 2..], ""))
    else Read(path[1..], cur + [path[0]])
  }

  function Compiled(path: string): Result<seq<Step>, PathError> {
    match Read(path, "")
    case None => Err(MalformedIndex(path))
    case Some(steps) => if steps == [] then Err(EmptyPath(path)) else Ok(steps)
  }

  /** The inner loop: digits up to the closing bracket. */
  method ReadIndex(s: string) returns (r: Option<(nat, nat)>)
    ensures r == IndexAt(s)
  {
    var j := 0;
    while j < |s| && IsDigit(s[j])
      invariant 0 <= j <= |s|
      invariant AllDigits(s[..j])
    {
      assert s[..j + 1] == s[..j] + [s[j]];
      j := j + 1;
    }
    DigitsEnd(s, j);
    if j == |s| || s[j] != ']' {
      return None;
    }
    var at := ParseUnsigned(s[..j]);
    return if at.None? then None else Some((at.value, j));
  }

  /** The key read so far becomes a step, unless it is empty. */
  function PushKey(steps: seq<Step>, cur: string): (r: seq<Step>)
    ensures r == steps + Flush(cur)
  {
    if cur == "" then steps else steps + [Key(cur)]
  }

  /** `rest` is what the character iterator has left. */
  method CompilePath(path: string) returns (r: Result<seq<Step>, PathError>)
    ensures r == Compiled(path)
  {
    var steps: seq<Step> := [];
    var cur, rest := "", path;
    PrependNothing(Read(path, ""));
    while rest != ""
      invariant Prepend(steps, Read(rest, cur)) == Read(path, "")
      decreases |rest|
    {
      if rest[0] == '.' {
        PrependTwice(steps, Flush(cur), Read(rest[1..], ""));
        steps, cur, rest := PushKey(steps, cur), "", rest[1..];
      } else if rest[0] == '[' {
        var index := ReadIndex(rest[1..]);
        if index.None? {
          return Err(MalformedIndex(path));
        }
        var step := Index(index.value.0);
        rest := rest[index.value.1 + 2..];
        PrependTwice(steps, Flush(cur) + [step], Read(rest, ""));
        assert steps + (Flush(cur) + [step]) == steps + Flush(cur) + [step];
        steps, cur := PushKey(steps, cur) + [step], "";
      } else {
        cur, rest := cur + [rest[0]], rest[1..];
      }
    }
    steps := PushKey(steps, cur);
    if steps == [] {
      return Err(EmptyPath(path));
    }
    return Ok(steps);
  }

  lemma PrependNothing(rest: Option<seq<Step>>)
    ensures Prepend([], rest) == rest
  {
    if rest.Some? { assert [] + rest.value == rest.value; }
  }

  lemma PrependTwice(a: seq<Step>, b: seq<Step>, rest: Option<seq<Step>>)
    ensures Prepend(a, Prepend(b, rest)) == Prepend(a + b, rest)
  {
    if rest.Some? { assert a + (b + rest.value) == (a + b) + rest.value; }
  }

  lemma {:induction false} DigitsEnd(s: string, n: nat)
    requires n <= |s| && AllDigits(s[..n]) && (n < |s| ==> !IsDigit(s[n]))
    ensures LeadingDigits(s) == n
  {
    if n > 0 {
      assert s[0] == s[..n][0];
      assert s[1..][..n - 1] == s[..n][1..];
      DigitsEnd(s[1..], n - 1);
    }
  }

  // Printing

  predicate WellFormed(step: Step) {
    match step
    case Key(name) => name != "" && '.' !in name && '[' !in name
    case Index(at) => at <= U64_MAX
  }

  predicate AllWellFormed(steps: seq<Step>) {
    forall s | s in steps :: WellFormed(s)
  }

  function PrintRest(steps: seq<Step>): string {
    if steps == [] then ""
    else
      (match steps[0]
       case Key(name) => "." + name
       case Index(at) => "[" + Dec(at) + "]")
      + PrintRest(steps[1..])
  }

  /** A dot between two keys, and after an index before a key. */
  function Print(steps: seq<Step>): string {
    if steps != [] && steps[0].Key? then steps[0].name + PrintRest(steps[1..]) else PrintRest(steps)
  }

  lemma {:induction false} ReadsKey(name: string, rest: string, cur: string)
    requires '.' !in name && '[' !in name
    ensures Read(name + rest, cur) == Read(rest, cur + name)
  {
    if name == "" {
      assert name + rest == rest && cur + name == cur;
    } else {
      assert (name + rest)[1..] == name[1..] + rest;
      ReadsKey(name[1..], rest, cur + [name[0]]);
      assert cur + [name[0]] + name[1..] == cur + name;
    }
  }

  lemma ReadsIndex(at: nat, rest: string, cur: string)
    requires at <= U64_MAX
    ensures Read("[" + Dec(at) + "]" + rest, cur) == Prepend(Flush(cur) + [Index(at)], Read(rest, ""))
  {
    var path, digits := "[" + Dec(at) + "]" + rest, Dec(at);
    DecIsDigits(at);
    ParsePrinted(at);
    assert path[1..] == digits + ("]" + rest);
    assert path[1..][..|digits|] == digits && path[1..][|digits|] == ']';
    DigitsEnd(path[1..], |digits|);
    assert path[|digits| + 2..] == rest;
  }

  lemma {:induction false} ReadsPrinted(steps: seq<Step>, cur: string)
    requires AllWellFormed(steps)
    ensures Read(PrintRest(steps), cur) == Some(Flush(cur) + steps)
  {
    if steps == [] {
      assert Flush(cur) + [] == Flush(cur);
    } else {
      var rest := PrintRest(steps[1..]);
      assert steps == [steps[0]] + steps[1..];
      assert WellFormed(steps[0]);
      match steps[0]
      case Key(name) =>
        var path := "." + name + rest;
        assert path[1..] == name + rest;
        ReadsKey(name, rest, "");
        assert "" + name == name;
        ReadsPrinted(steps[1..], name);
        assert Flush(name) + steps[1..] == steps;
      case Index(at) =>
        ReadsIndex(at, rest, cur);
        ReadsPrinted(steps[1..], "");
        assert Flush("") + steps[1..] == steps[1..];
        assert Flush(cur) + [Index(at)] + steps[1..] == Flush(cur) + steps;
    }
  }

  lemma {:induction false} ReadsWellFormed(path: string, cur: string)
    requires '.' !in cur && '[' !in cur
    ensures Read(path, cur).Some? ==> AllWellFormed(Read(path, cur).value)
    decreases |path|
  {
    if path != "" {
      if path[0] == '.' {
        ReadsWellFormed(path[1..], "");
      } else if path[0] == '[' {
        var index := IndexAt(path[1..]);
        if index.Some? { ReadsWellFormed(path[index.value.1 + 2..], ""); }
      } else {
        ReadsWellFormed(path[1..], cur + [path[0]]);
      }
    }
  }

  /** Whatever compiles, compiles to well-formed steps. */
  lemma CompilesWellFormed(path: string)
    ensures Compiled(path).Ok? ==> Compiled(path).value != [] && AllWellFormed(Compiled(path).value)
  {
    ReadsWellFormed(path, "");
  }

  /** Steps survive printing and compiling iff there is one, and all are well-formed. */
  lemma PathRoundTrip(steps: seq<Step>)
    ensures Compiled(Print(steps)) == Ok(steps) <==> steps != [] && AllWellFormed(steps)
  {
    CompilesWellFormed(Print(steps));
    if steps != [] && AllWellFormed(steps) {
      assert WellFormed(steps[0]);
      match steps[0]
      case Key(name) =>
        ReadsKey(name, PrintRest(steps[1..]), "");
        assert "" + name == name;
        ReadsPrinted(steps[1..], name);
        assert Flush(name) + steps[1..] == steps;
      case Index(_) =>
        ReadsPrinted(steps, "");
        assert Flush("") + steps == steps;
    }
  }

  /** Every path that compiles has a printed form that compiles to the same. */
  lemma PathNormalForm(path: string)
    requires Compiled(path).Ok?
    ensures Compiled(Print(Compiled(path).value)) == Compiled(path)
  {
    CompilesWellFormed(path);
    PathRoundTrip(Compiled(path).value);
  }

  // Following a path

  datatype Value =
    | JsonNull
    | JsonBool(truth: bool)
    | JsonNumber(text: string)
    | JsonString(text: string)
    | JsonArray(items: seq<Value>)
    | JsonObject(members: map<string, Value>)

  function Follow(v: Value, step: Step): Option<Value> {
    match step
    case Key(name) => if v.JsonObject? && name in v.members then Some(v.members[name]) else None
    case Index(at) => if v.JsonArray? && at < |v.items| then Some(v.items[at]) else None
  }

  function Resolved(v: Value, steps: seq<Step>): Option<Value> {
    if steps == [] then Some(v)
    else match Follow(v, steps[0])
         case None => None
         case Some(next) => Resolved(next, steps[1..])
  }

  method Resolve(record: Value, steps: seq<Step>) returns (r: Option<Value>)
    ensures r == Resolved(record, steps)
  {
    var cur := record;
    for i := 0 to |steps|
      invariant Resolved(cur, steps[i..]) == Resolved(record, steps)
    {
      assert steps[i..][1..] == steps[i + 1..];
      match Follow(cur, steps[i])
      case None => return None;
      case Some(next) => cur := next;
    }
    return Some(cur);
  }

  /** Following two paths one after the other is following their concatenation. */
  lemma {:induction false} ResolveComposes(v: Value, a: seq<Step>, b: seq<Step>)
    ensures Resolved(v, a + b) == match Resolved(v, a) case None => None case Some(w) => Resolved(w, b)
  {
    if a == [] {
      assert a + b == b;
    } else {
      assert (a + b)[1..] == a[1..] + b;
      var next := Follow(v, a[0]);
      if next.Some? { ResolveComposes(next.value, a[1..], b); }
    }
  }

  /** What a step needs of the value it is taken from: an object with that
      member, or an array longer than the index. */
  ghost predicate Fits(v: Value, step: Step) {
    || (step.Key? && v.JsonObject? && step.name in v.members)
    || (step.Index? && v.JsonArray? && step.at < |v.items|)
  }

  /** A path leads somewhere iff every value on the way fits the next step. */
  lemma {:induction false} ResolvesIffFits(record: Value, steps: seq<Step>)
    ensures Resolved(record, steps).Some? <==>
              forall i | 0 <= i < |steps| ::
                Resolved(record, steps[..i]).Some? && Fits(Resolved(record, steps[..i]).value, steps[i])
  {
    if steps != [] {
      var last := |steps| - 1;
      var front := steps[..last];
      assert steps == front + [steps[last]];
      ResolveComposes(record, front, [steps[last]]);
      ResolvesIffFits(record, front);
      forall i | 0 <= i < last ensures front[..i] == steps[..i] {}
      if Resolved(record, front).Some? {
        var v := Resolved(record, front).value;
        assert [steps[last]][1..] == [];
        assert Resolved(v, [steps[last]]).Some? <==> Fits(v, steps[last]);
      }
    }
  }

  /** The record with the value at a path replaced; unchanged if the path leads nowhere. */
  function Replaced(record: Value, steps: seq<Step>, v: Value): Value
    decreases |steps|
  {
    if steps == [] then v
    else
      match (record, steps[0])
      case (JsonObject(members), Key(name)) =>
        if name in members then JsonObject(members[name := Replaced(members[name], steps[1..], v)]) else record
      case (JsonArray(items), Index(at)) =>
        if at < |items| then JsonArray(items[at := Replaced(items[at], steps[1..], v)]) else record
      case _ => record
  }

  /** What is put at a path is what the path then leads to. */
  lemma {:induction false} ReplacedReadsBack(record: Value, steps: seq<Step>, v: Value)
    requires Resolved(record, steps).Some?
    ensures Resolved(Replaced(record, steps, v), steps) == Some(v)
    decreases |steps|
  {
    if steps != [] { ReplacedReadsBack(Follow(record, steps[0]).value, steps[1..], v); }
  }

  /** Two paths part: after a common beginning they take different steps. */
  ghost predicate Part(a: seq<Step>, b: seq<Step>) {
    exists i :: 0 <= i < |a| && i < |b| && a[..i] == b[..i] && a[i] != b[i]
  }

  lemma PartLater(a: seq<Step>, b: seq<Step>)
    requires Part(a, b) && a[0] == b[0]
    ensures Part(a[1..], b[1..])
  {
    var i :| 0 <= i < |a| && i < |b| && a[..i] == b[..i] && a[i] != b[i];
    assert a[1..][..i - 1] == a[..i][1..] && b[1..][..i - 1] == b[..i][1..];
    assert a[1..][i - 1] != b[1..][i - 1];
  }

  /** Paths that part from it lead where they did before. */
  lemma {:induction false} ReplacedKeepsOthers(record: Value, steps: seq<Step>, v: Value, other: seq<Step>)
    requires Part(steps, other)
    ensures Resolved(Replaced(record, steps, v), other) == Resolved(record, other)
    decreases |steps|
  {
    if steps[0] == other[0] {
      PartLater(steps, other);
      var next := Follow(record, steps[0]);
      if next.Some? { ReplacedKeepsOthers(next.value, steps[1..], v, other[1..]); }
    }
  }

  // Records

  /** `serde_json::from_str` on a trimmed line. */
  type Parser = string -> Option<Value>

  function Records(lines: seq<string>, trim: string -> string, parse: Parser): seq<Value> {
    if lines == [] then []
    else
      var line := trim(lines[|lines| - 1]);
      Records(lines[..|lines| - 1], trim, parse)
      + if line == "" then [] else match parse(line) case Some(v) => [v] case None => []
  }

  /** The records of lines in two parts are those of the one and then those of the other. */
  lemma {:induction false} RecordsOfParts(a: seq<string>, b: seq<string>, trim: string -> string, parse: Parser)
    ensures Records(a + b, trim, parse) == Records(a, trim, parse) + Records(b, trim, parse)
    decreases |b|
  {
    if b == [] {
      assert a + b == a;
    } else {
      var front := b[..|b| - 1];
      assert (a + b)[..|a + b| - 1] == a + front;
      RecordsOfParts(a, front, trim, parse);
    }
  }

  /** A line holds a record iff something is left of it once trimmed, and that parses. */
  lemma RecordOfLine(line: string, trim: string -> string, parse: Parser, v: Value)
    ensures Records([line], trim, parse) == [v] <==> |trim(line)| > 0 && parse(trim(line)) == Some(v)
    ensures |Records([line], trim, parse)| <= 1
  {
    assert [line][..0] == [];
    assert Records([], trim, parse) == [];
    var text := trim(line);
    assert Records([line], trim, parse)
        == if text == "" then [] else match parse(text) case Some(w) => [w] case None => [];
  }

  function Filled(lines: seq<string>, trim: string -> string): nat {
    if lines == [] then 0
    else Filled(lines[..|lines| - 1], trim) + if trim(lines[|lines| - 1]) == "" then 0 else 1
  }

  /** One record per line that parses, in order; every other line that is not
      blank is counted as skipped. */
  method ParseRecords(lines: seq<string>, trim: string -> string, parse: Parser)
    returns (records: seq<Value>, skipped: nat)
    ensures records == Records(lines, trim, parse)
    ensures |records| + skipped == Filled(lines, trim)
  {
    records, skipped := [], 0;
    for i := 0 to |lines|
      invariant records == Records(lines[..i], trim, parse)
      invariant |records| + skipped == Filled(lines[..i], trim)
    {
      assert lines[..i + 1][..i] == lines[..i];
      var trimmed := trim(lines[i]);
      if trimmed != "" {
        match parse(trimmed)
        case Some(v) => records := records + [v];
        case None => skipped := skipped + 1;
      }
    }
    assert lines[..|lines|] == lines;
  }
}
