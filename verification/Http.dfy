/**
 The two pure decisions of the HTTP side: which pipeline prefixes are
 accepted, and which pipelines an uploaded key concerns.
 */
module Http {
  import opened Text

  const MAX_PREFIX_LEN: nat := 512

  /** Bytes of a character in UTF-8. */
  function Utf8Size(c: char): nat {
    if c as int < 0x80 then 1 else if c as int < 0x800 then 2 else if c as int < 0x10000 then 3 else 4
  }

  function Utf8Length(s: string): nat {
    if s == "" then 0 else Utf8Size(s[0]) + Utf8Length(s[1..])
  }

  predicate IsSegmentChar(c: char) {
    'a' <= c <= 'z' || 'A' <= c <= 'Z' || IsDigit(c) || c == '-' || c == '_' || c == '.'
  }

  predicate GoodSegment(segment: string) {
    segment != "" && segment != "." && segment != ".." && forall c | c in segment :: IsSegmentChar(c)
  }

  /** `segment/segment/.../`. */
  function Path(segments: seq<string>): string {
    if segments == [] then "" else segments[0] + ['/'] + Path(segments[1..])
  }

  /** A path of at least one good segment, short enough. */
  ghost predicate ValidPrefix(prefix: string) {
    Utf8Length(prefix) <= MAX_PREFIX_LEN && IsPath(prefix)
  }

  ghost predicate IsPath(s: string) {
    exists segments: seq<string> :: segments != [] && AllGood(segments) && s == Path(segments)
  }

  predicate AllGood(segments: seq<string>) {
    forall i | 0 <= i < |segments| :: GoodSegment(segments[i])
  }

  lemma GoodHasNoSlash(segment: string)
    requires GoodSegment(segment)
    ensures '/' !in segment
  {
  }

  /** Without its last slash, a path splits one segment at a time. */
  lemma SplitMore(first: string, rest: string, parts: seq<string>)
    requires '/' !in first && rest != "" && rest[|rest| - 1] == '/' && SplitOn(rest[..|rest| - 1], '/') == parts
    ensures var p := first + ['/'] + rest; p[|p| - 1] == '/' && SplitOn(p[..|p| - 1], '/') == [first] + parts
  {
    var p := first + ['/'] + rest;
    assert p[..|p| - 1] == first + ['/'] + rest[..|rest| - 1];
    SplitAppended(first, '/', rest[..|rest| - 1]);
  }

  lemma SplitOne(segment: string)
    requires '/' !in segment
    ensures var p := Path([segment]); p != "" && p[|p| - 1] == '/' && SplitOn(p[..|p| - 1], '/') == [segment]
  {
    assert Path([segment]) == segment + ['/'] + "";
    CutAfter(segment, '/', "");
    SplitWhole(segment, '/');
  }

  predicate NoSlashes(segments: seq<string>) {
    forall i | 0 <= i < |segments| :: '/' !in segments[i]
  }

  lemma {:induction false} SplitOfPath(segments: seq<string>)
    requires segments != [] && NoSlashes(segments)
    ensures var p := Path(segments); p != "" && p[|p| - 1] == '/' && SplitOn(p[..|p| - 1], '/') == segments
  {
    var first, rest := segments[0], segments[1..];
    if rest == [] {
      assert segments == [first];
      SplitOne(first);
    } else {
      SplitOfPath(rest);
      SplitMore(first, Path(rest), rest);
      assert [first] + rest == segments;
    }
  }

  lemma GoodNoSlashes(segments: seq<string>)
    requires AllGood(segments)
    ensures NoSlashes(segments)
  {
    forall i | 0 <= i < |segments| ensures '/' !in segments[i] { GoodHasNoSlash(segments[i]); }
  }

  lemma Rejoined(s: string, i: nat)
    requires i < |s| && s[i] == '/'
    ensures s[..i] + ['/'] + (s[i + 1..] + "/") == s + "/"
  {
  }

  lemma {:induction false} PathOfSplit(s: string)
    ensures Path(SplitOn(s, '/')) == s + "/"
    decreases |s|
  {
    var i := IndexOf(s, '/');
    if i < |s| {
      PathOfSplit(s[i + 1..]);
      PathOfCons(s[..i], SplitOn(s[i + 1..], '/'));
      Rejoined(s, i);
    } else {
      PathOfCons(s, []);
      assert [s] + [] == SplitOn(s, '/');
    }
  }

  lemma PathOfCons(head: string, segments: seq<string>)
    ensures Path([head] + segments) == head + ['/'] + Path(segments)
  {
    assert ([head] + segments)[1..] == segments;
  }

  /** What the checks on a non-empty string that starts and ends right decide. */
  lemma PathIffSplitGood(s: string)
    requires s != "" && s[|s| - 1] == '/'
    ensures IsPath(s) <==> AllGood(SplitOn(s[..|s| - 1], '/'))
    ensures IsPath(s) ==> s[0] != '/'
  {
    var parts := SplitOn(s[..|s| - 1], '/');
    PathOfSplit(s[..|s| - 1]);
    assert s == s[..|s| - 1] + "/";
    if segments: seq<string> :| segments != [] && AllGood(segments) && s == Path(segments) {
      GoodNoSlashes(segments);
      SplitOfPath(segments);
      FirstIsGood(segments);
    }
  }

  lemma FirstIsGood(segments: seq<string>)
    requires segments != [] && AllGood(segments)
    ensures Path(segments) != "" && Path(segments)[0] != '/'
  {
    assert GoodSegment(segments[0]) && segments[0][0] in segments[0];
    assert Path(segments)[0] == segments[0][0];
  }

  lemma PathEnds(s: string)
    requires IsPath(s)
    ensures s != "" && s[|s| - 1] == '/'
  {
    var segments: seq<string> :| segments != [] && AllGood(segments) && s == Path(segments);
    GoodNoSlashes(segments);
    SplitOfPath(segments);
  }

  // The same said of the characters

  predicate PathChar(c: char) {
    'a' <= c <= 'z' || 'A' <= c <= 'Z' || '0' <= c <= '9' || c == '.' || c == '_' || c == '-' || c == '/'
  }

  /** At most 512 characters, all of them harmless, one slash at the end, and between two
      slashes never nothing, one dot, or two; the start counts as a slash. */
  predicate FolderPath(prefix: string) {
    && 0 < |prefix| <= 512 && prefix[|prefix| - 1] == '/'
    && (forall i | 0 <= i < |prefix| :: PathChar(prefix[i]))
    && !Contains("/" + prefix, "//") && !Contains("/" + prefix, "/./") && !Contains("/" + prefix, "/../")
  }

  lemma {:induction false} AsciiLength(s: string)
    ensures Utf8Length(s) >= |s|
    ensures (forall i | 0 <= i < |s| :: PathChar(s[i])) ==> Utf8Length(s) == |s|
  {
    if s != "" {
      AsciiLength(s[1..]);
      if forall i | 0 <= i < |s| :: PathChar(s[i]) {
        assert forall i | 0 <= i < |s[1..]| :: s[1..][i] == s[i + 1];
      }
    }
  }

  predicate SegmentChars(part: string) {
    forall c | c in part :: IsSegmentChar(c)
  }

  predicate PathChars(s: string) {
    forall c | c in s :: PathChar(c)
  }

  /** Its segments have harmless characters iff it has, slashes aside. */
  lemma {:induction false} SplitChars(s: string)
    ensures (forall part | part in SplitOn(s, '/') :: SegmentChars(part)) <==> PathChars(s)
    decreases |s|
  {
    var i := IndexOf(s, '/');
    if i == |s| {
      assert s[..i] == s && s in SplitOn(s, '/');
      assert forall c | c in s :: c != '/';
    } else {
      var a, b := s[..i], s[i + 1..];
      SplitChars(b);
      assert s == a + ['/'] + b;
      assert PathChars(s) <==> SegmentChars(a) && PathChars(b) by { CharsAppend(a, b); }
      assert SplitOn(s, '/') == [a] + SplitOn(b, '/');
    }
  }

  lemma CharsAppend(a: string, b: string)
    requires '/' !in a
    ensures PathChars(a + ['/'] + b) <==> SegmentChars(a) && PathChars(b)
  {
    var s := a + ['/'] + b;
    assert forall c :: c in s <==> c in a || c == '/' || c in b;
  }

  lemma GoodParts(s: string)
    ensures AllGood(SplitOn(s, '/')) <==>
            PathChars(s)
            && !Contains("/" + s + "/", "//") && !Contains("/" + s + "/", "/./") && !Contains("/" + s + "/", "/../")
  {
    var parts := SplitOn(s, '/');
    SplitChars(s);
    SegmentsBetween(s, "");
    SegmentsBetween(s, ".");
    SegmentsBetween(s, "..");
    assert "/" + "" + "/" == "//" && "/" + "." + "/" == "/./" && "/" + ".." + "/" == "/../";
    assert AllGood(parts) <==> forall part | part in parts :: GoodSegment(part);
  }

  lemma ValidIffFolder(prefix: string)
    ensures ValidPrefix(prefix) <==> FolderPath(prefix)
  {
    AsciiLength(prefix);
    if IsPath(prefix) { PathEnds(prefix); }
    if prefix != "" && prefix[|prefix| - 1] == '/' {
      var s := prefix[..|prefix| - 1];
      PathIffSplitGood(prefix);
      GoodParts(s);
      assert prefix == s + "/" && "/" + s + "/" == "/" + prefix;
      assert PathChars(s) <==> forall i | 0 <= i < |prefix| :: PathChar(prefix[i]);
    }
  }

  /** `validate_pipeline_prefix`: it accepts exactly the valid prefixes. */
  method ValidatePipelinePrefix(prefix: string) returns (r: Result<(), string>)
    ensures r.Ok? <==> ValidPrefix(prefix)
    ensures r.Ok? <==> FolderPath(prefix)
  {
    ValidIffFolder(prefix);
    if IsPath(prefix) { PathEnds(prefix); }
    if prefix == "" {
      return Err("pipeline_prefix must not be empty");
    }
    if Utf8Length(prefix) > MAX_PREFIX_LEN {
      return Err("pipeline_prefix is too long");
    }
    if prefix[|prefix| - 1] == '/' { PathIffSplitGood(prefix); }
    if prefix[0] == '/' {
      return Err("pipeline_prefix must not start with '/'");
    }
    if prefix[|prefix| - 1] != '/' {
      return Err("pipeline_prefix must end with '/'");
    }
    r := CheckSegments(SplitOn(prefix[..|prefix| - 1], '/'));
  }

  method CheckSegments(segments: seq<string>) returns (r: Result<(), string>)
    ensures r.Ok? <==> AllGood(segments)
  {
    for i := 0 to |segments|
      invariant AllGood(segments[..i])
    {
      if segments[i] == "" {
        return Err("pipeline_prefix must not contain empty path segments");
      }
      if segments[i] == "." || segments[i] == ".." {
        return Err("pipeline_prefix must not contain '.' or '..' segments");
      }
      if exists c | c in segments[i] :: !IsSegmentChar(c) {
        return Err("pipeline_prefix segment contains characters outside [A-Za-z0-9._-]");
      }
    }
    assert segments[..|segments|] == segments;
    return Ok(());
  }

  // Routing an uploaded key to pipelines

  /** A source prefix and the pipeline that reads it. */
  datatype Route = Route(prefix: string, slug: string)

  predicate Concerns(route: Route, key: string) {
    route.prefix != "" && StartsWith(key, route.prefix)
  }

  function InsertText(s: string, sorted: seq<string>): (r: seq<string>)
    ensures forall x :: x in r <==> x == s || x in sorted
  {
    if sorted == [] || !Less(sorted[0], s) then [s] + sorted else [sorted[0]] + InsertText(s, sorted[1..])
  }

  /** `sort`. */
  function SortTexts(texts: seq<string>): (r: seq<string>)
    ensures forall x :: x in r <==> x in texts
  {
    if texts == [] then [] else InsertText(texts[0], SortTexts(texts[1..]))
  }

  /** `dedup`: drop an element equal to the one before it. */
  function Dedup(texts: seq<string>): (r: seq<string>)
    ensures forall x :: x in r <==> x in texts
    ensures texts != [] ==> r != [] && r[0] == texts[0]
  {
    if |texts| <= 1 then texts
    else if texts[0] == texts[1] then Dedup(texts[1..])
    else [texts[0]] + Dedup(texts[1..])
  }

  predicate Ascending(texts: seq<string>) {
    forall i, j | 0 <= i < j < |texts| :: !Less(texts[j], texts[i])
  }

  predicate StrictlyAscending(texts: seq<string>) {
    forall i, j | 0 <= i < j < |texts| :: Less(texts[i], texts[j])
  }

  lemma NotLessTransitive(a: string, b: string, c: string)
    requires !Less(b, a) && !Less(c, b)
    ensures !Less(c, a)
  {
    LessTotal(a, b);
    LessTotal(b, c);
    if Less(a, b) && Less(b, c) { LessTransitive(a, b, c); }
    if Less(c, a) {
      if Less(a, b) { LessTransitive(c, a, b); }
      if Less(b, c) { LessTransitive(b, c, a); }
      LessIrreflexive(a);
    }
  }

  lemma {:induction false} InsertAscending(s: string, sorted: seq<string>)
    requires Ascending(sorted)
    ensures Ascending(InsertText(s, sorted))
  {
    var r := InsertText(s, sorted);
    if sorted != [] && Less(sorted[0], s) {
      InsertAscending(s, sorted[1..]);
      forall j | 0 < j < |r| ensures !Less(r[j], r[0]) {
        assert r[j] in r[1..];
        if r[j] == s && Less(s, sorted[0]) {
          LessTransitive(s, sorted[0], s);
          LessIrreflexive(s);
        }
      }
    } else if sorted != [] {
      forall j | 0 < j < |r| ensures !Less(r[j], r[0]) {
        if j > 1 { NotLessTransitive(s, sorted[0], sorted[j - 1]); }
      }
    }
  }

  lemma {:induction false} SortAscending(texts: seq<string>)
    ensures Ascending(SortTexts(texts))
  {
    if texts != [] {
      SortAscending(texts[1..]);
      InsertAscending(texts[0], SortTexts(texts[1..]));
    }
  }

  lemma {:induction false} DedupAscending(texts: seq<string>)
    requires Ascending(texts)
    ensures StrictlyAscending(Dedup(texts))
  {
    if |texts| > 1 {
      var rest := Dedup(texts[1..]);
      DedupAscending(texts[1..]);
      if texts[0] != texts[1] {
        forall j | 0 <= j < |rest| ensures Less(texts[0], rest[j]) {
          assert !Less(texts[1], texts[0]);
          LessTotal(texts[0], texts[1]);
          if j > 0 { LessTransitive(texts[0], rest[0], rest[j]); }
        }
      }
    }
  }

  /** `match_key`: every pipeline one of whose prefixes the key is under, once,
      in order. */
  method MatchKey(routes: seq<Route>, key: string) returns (slugs: seq<string>)
    ensures StrictlyAscending(slugs)
    ensures forall slug :: slug in slugs <==>
              exists r | r in routes :: r.slug == slug && r.prefix != "" && r.prefix <= key
  {
    slugs := [];
    for i := 0 to |routes|
      invariant forall slug :: slug in slugs <==> exists r | r in routes[..i] :: Concerns(r, key) && r.slug == slug
    {
      assert routes[..i + 1] == routes[..i] + [routes[i]];
      if Concerns(routes[i], key) {
        slugs := slugs + [routes[i].slug];
      }
    }
    assert routes[..|routes|] == routes;
    SortAscending(slugs);
    DedupAscending(SortTexts(slugs));
    slugs := Dedup(SortTexts(slugs));
  }
}
