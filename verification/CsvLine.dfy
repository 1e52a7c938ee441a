/**
 Splitting one line of a CSV reference file, quotes and `""` escapes honoured,
 against the way such lines are written (rules 5 to 7 in section 2 of RFC 4180).
 */
module CsvLine {
  import opened Text

  /** `trim_end_matches('\r')`. */
  function TrimCr(s: string): (r: string)
    ensures r <= s && (r == "" || r[|r| - 1] != '\r') && forall i | |r| <= i < |s| :: s[i] == '\r'
  {
    if s != "" && s[|s| - 1] == '\r' then TrimCr(s[..|s| - 1]) else s
  }

  /** The fields of a line, when `field` has been read of the current one. */
  function Fields(line: string, field: string, inQuotes: bool): (fields: seq<string>)
    ensures fields != []
  {
    if line == "" then [TrimCr(field)]
    else if line[0] == '"' && inQuotes && |line| > 1 && line[1] == '"' then Fields(line[2..], field + "\"", true)
    else if line[0] == '"' then Fields(line[1..], field, !inQuotes)
    else if line[0] == ',' && !inQuotes then [field] + Fields(line[1..], "", false)
    else Fields(line[1..], field + [line[0]], inQuotes)
  }

  function Split(line: string): seq<string> {
    Fields(line, "", false)
  }

  method SplitCsvLine(line: string) returns (out: seq<string>)
    ensures out == Split(line)
  {
    out := [];
    var field := "";
    var inQuotes := false;
    var i := 0;
    while i < |line|
      invariant 0 <= i <= |line|
      invariant out + Fields(line[i..], field, inQuotes) == Split(line)
    {
      var c := line[i];
      ghost var rest := line[i..];
      assert rest[0] == c && rest[1..] == line[i + 1..];
      assert i + 1 < |line| ==> rest[1] == line[i + 1] && rest[2..] == line[i + 2..];
      if c == '"' && inQuotes && i + 1 < |line| && line[i + 1] == '"' {
        field := field + "\"";
        i := i + 1;
      } else if c == '"' {
        inQuotes := !inQuotes;
      } else if c == ',' && !inQuotes {
        assert out + ([field] + Fields(rest[1..], "", false)) == (out + [field]) + Fields(rest[1..], "", false);
        out := out + [field];
        field := "";
      } else {
        field := field + [c];
      }
      i := i + 1;
    }
    assert line[i..] == "";
    out := out + [TrimCr(field)];
  }

  // Writing lines

  function Doubled(s: string): string {
    if s == "" then "" else (if s[0] == '"' then "\"\"" else [s[0]]) + Doubled(s[1..])
  }

  /** A field as written: in quotes, or bare if it has no comma and no quote. */
  datatype Written = Quoted(text: string) | Bare(text: string) {
    predicate Allowed() {
      Bare? ==> ',' !in text && '"' !in text
    }
  }

  function RenderField(f: Written): string {
    match f
    case Quoted(text) => "\"" + Doubled(text) + "\""
    case Bare(text) => text
  }

  function Render(fields: seq<Written>): string
    requires fields != []
  {
    if |fields| == 1 then RenderField(fields[0]) else RenderField(fields[0]) + "," + Render(fields[1..])
  }

  predicate AllAllowed(fields: seq<Written>) {
    forall f | f in fields :: f.Allowed()
  }

  function Texts(fields: seq<Written>): (texts: seq<string>)
    ensures |texts| == |fields|
  {
    seq(|fields|, i requires 0 <= i < |fields| => fields[i].text)
  }

  lemma {:induction false} BareReads(text: string, rest: string, field: string)
    requires ',' !in text && '"' !in text
    ensures Fields(text + rest, field, false) == Fields(rest, field + text, false)
  {
    if text == "" {
      assert text + rest == rest && field + text == field;
    } else {
      BareReads(text[1..], rest, field + [text[0]]);
      assert (text + rest)[1..] == text[1..] + rest;
      assert field + [text[0]] + text[1..] == field + text;
    }
  }

  lemma {:induction false} QuotedReads(text: string, rest: string, field: string)
    requires rest == "" || rest[0] == ','
    ensures Fields(Doubled(text) + "\"" + rest, field, true) == Fields(rest, field + text, false)
  {
    var line := Doubled(text) + "\"" + rest;
    if text == "" {
      assert line == "\"" + rest && line[1..] == rest && field + text == field;
    } else {
      var step := if text[0] == '"' then "\"\"" else [text[0]];
      var more := Doubled(text[1..]) + "\"" + rest;
      assert line == step + more && line[|step|..] == more;
      QuotedReads(text[1..], rest, field + [text[0]]);
      assert field + [text[0]] + text[1..] == field + text;
    }
  }

  lemma OpenQuote(rest: string)
    ensures Fields("\"" + rest, "", false) == Fields(rest, "", true)
  {
    assert ("\"" + rest)[1..] == rest;
  }

  lemma FieldReads(f: Written, rest: string)
    requires f.Allowed() && (rest == "" || rest[0] == ',')
    ensures Fields(RenderField(f) + rest, "", false) == Fields(rest, f.text, false)
  {
    assert "" + f.text == f.text;
    match f
    case Bare(text) => BareReads(text, rest, "");
    case Quoted(text) =>
      var quoted := Doubled(text) + "\"" + rest;
      assert RenderField(f) + rest == "\"" + quoted;
      OpenQuote(quoted);
      QuotedReads(text, rest, "");
  }

  /** What a written line splits into: its fields, the carriage returns at the
      end of the last one gone. */
  lemma {:induction false} SplitsAsWritten(fields: seq<Written>)
    requires fields != [] && AllAllowed(fields)
    ensures Split(Render(fields)) == Texts(fields)[..|fields| - 1] + [TrimCr(fields[|fields| - 1].text)]
  {
    if |fields| == 1 {
      assert RenderField(fields[0]) + "" == RenderField(fields[0]);
      FieldReads(fields[0], "");
    } else {
      var rest := "," + Render(fields[1..]);
      assert Render(fields) == RenderField(fields[0]) + rest;
      FieldReads(fields[0], rest);
      assert rest[1..] == Render(fields[1..]);
      SplitsAsWritten(fields[1..]);
      assert Texts(fields)[..|fields| - 1] == [fields[0].text] + Texts(fields[1..])[..|fields| - 2];
    }
  }

  lemma TrimKeeps(s: string)
    ensures TrimCr(s) == s <==> !EndsWith(s, "\r")
  {
    assert EndsWith(s, "\r") <==> s != "" && s[|s| - 1] == '\r';
  }

  lemma LastReplaced(texts: seq<string>, last: string)
    requires texts != []
    ensures texts[..|texts| - 1] + [last] == texts <==> last == texts[|texts| - 1]
  {
    var replaced := texts[..|texts| - 1] + [last];
    assert replaced[|texts| - 1] == last;
  }

  /** The round trip loses nothing iff the last field does not end in a
      carriage return, however each field was written. */
  lemma CsvRoundTrip(fields: seq<Written>)
    requires fields != [] && AllAllowed(fields)
    ensures Split(Render(fields)) == Texts(fields) <==> !EndsWith(fields[|fields| - 1].text, "\r")
  {
    var last := fields[|fields| - 1].text;
    SplitsAsWritten(fields);
    TrimKeeps(last);
    LastReplaced(Texts(fields), TrimCr(last));
  }

  // Any line at all

  function Quotes(s: string): nat {
    if s == "" then 0 else Quotes(s[..|s| - 1]) + if s[|s| - 1] == '"' then 1 else 0
  }

  /** The separators of a line: the commas with an even number of quotes before them. */
  function Separators(line: string): nat {
    if line == "" then 0
    else Separators(line[..|line| - 1])
         + if line[|line| - 1] == ',' && Quotes(line[..|line| - 1]) % 2 == 0 then 1 else 0
  }

  lemma OneMore(line: string, i: nat)
    requires i < |line|
    ensures Quotes(line[..i + 1]) == Quotes(line[..i]) + if line[i] == '"' then 1 else 0
    ensures Separators(line[..i + 1])
         == Separators(line[..i]) + if line[i] == ',' && Quotes(line[..i]) % 2 == 0 then 1 else 0
  {
    assert line[..i + 1][..i] == line[..i];
  }

  lemma {:induction false} CountsSeparators(line: string, i: nat, field: string, inQuotes: bool)
    requires i <= |line| && inQuotes == (Quotes(line[..i]) % 2 == 1)
    ensures Separators(line[..i]) + |Fields(line[i..], field, inQuotes)| == Separators(line) + 1
    decreases |line| - i
  {
    if i == |line| {
      assert line[..i] == line && line[i..] == "";
    } else {
      var rest := line[i..];
      assert rest[1..] == line[i + 1..];
      OneMore(line, i);
      if line[i] == '"' && inQuotes && |rest| > 1 && rest[1] == '"' {
        assert rest[2..] == line[i + 2..];
        OneMore(line, i + 1);
        CountsSeparators(line, i + 2, field + "\"", true);
      } else if line[i] == '"' {
        CountsSeparators(line, i + 1, field, !inQuotes);
      } else if line[i] == ',' && !inQuotes {
        CountsSeparators(line, i + 1, "", false);
      } else {
        CountsSeparators(line, i + 1, field + [line[i]], inQuotes);
      }
    }
  }

  /** Whatever the line, it has one field more than it has separators. */
  lemma FieldsAreSeparated(line: string)
    ensures |Split(line)| == Separators(line) + 1
  {
    assert line[..0] == "" && line[0..] == line;
    CountsSeparators(line, 0, "", false);
  }
}
