/**
 Strings as the worker uses them: decimal numbers inside object keys, prefix
 and suffix tests, and the order `sort` puts keys in.

 A Rust `String` is a `seq<char>` here. Its order is by UTF-8 bytes, which is
 the order of the code points, so `Less` compares characters.
 */
module Text {

  datatype Option<+T> = None | Some(value: T)

  datatype Result<+T, +E> = Ok(value: T) | Err(error: E)

  newtype byte = b: int | 0 <= b < 256

  type Bytes = seq<byte>

  const U64_MAX: nat := 0xFFFF_FFFF_FFFF_FFFF

  predicate StartsWith(s: string, prefix: string) {
    prefix <= s
  }

  /** Of two prefixes of one string, one is a prefix of the other. */
  lemma OneInOther(a: string, b: string, key: string)
    requires StartsWith(key, a) && StartsWith(key, b)
    ensures StartsWith(a, b) || StartsWith(b, a)
  {
    assert a == key[..|a|] && b == key[..|b|];
    assert if |a| <= |b| then b[..|a|] == a else a[..|b|] == b;
  }

  predicate EndsWith(s: string, suffix: string) {
    |suffix| <= |s| && s[|s| - |suffix|..] == suffix
  }

  ghost predicate HasSuffix(s: string, suffix: string) {
    exists stem: string :: s == stem + suffix
  }

  lemma SuffixIffEnds(s: string, suffix: string)
    ensures HasSuffix(s, suffix) <==> EndsWith(s, suffix)
  {
    if EndsWith(s, suffix) { assert s == s[..|s| - |suffix|] + suffix; }
  }

  predicate ContainsAt(s: string, part: string, at: nat) {
    at + |part| <= |s| && s[at..at + |part|] == part
  }

  /** `str::contains`. */
  predicate Contains(s: string, part: string) {
    exists at: nat | at <= |s| :: ContainsAt(s, part, at)
  }

  predicate NoRepeats<T(==)>(xs: seq<T>) {
    forall i, j | 0 <= i < j < |xs| :: xs[i] != xs[j]
  }

  // Decimal numbers

  predicate IsDigit(c: char) {
    '0' <= c <= '9'
  }

  function Digit(d: nat): (c: char)
    requires d < 10
    ensures IsDigit(c) && c as int == '0' as int + d
  {
    ('0' as int + d) as char
  }

  /** `u64` and `usize` as `format!` prints them. */
  function Dec(n: nat): string {
    if n < 10 then [Digit(n)] else Dec(n / 10) + [Digit(n % 10)]
  }

  predicate AllDigits(s: string) {
    forall i | 0 <= i < |s| :: IsDigit(s[i])
  }

  function DigitsValue(s: string): nat
    requires AllDigits(s)
  {
    if s == "" then 0
    else DigitsValue(s[..|s| - 1]) * 10 + (s[|s| - 1] as int - '0' as int)
  }

  /** `str::parse::<u64>`, and `usize` on a 64-bit target: one optional plus
      sign, then at least one digit, and the value must fit. */
  function ParseUnsigned(s: string): Option<nat> {
    var digits := if StartsWith(s, "+") then s[1..] else s;
    if digits != "" && AllDigits(digits) && DigitsValue(digits) <= U64_MAX
    then Some(DigitsValue(digits)) else None
  }

  predicate Numeral(s: string) {
    s != "" && forall c | c in s :: '0' <= c <= '9'
  }

  lemma NumeralDigits(s: string)
    ensures Numeral(s) <==> s != "" && AllDigits(s)
  {
    if Numeral(s) { forall i | 0 <= i < |s| ensures IsDigit(s[i]) { assert s[i] in s; } }
    if AllDigits(s) { forall c | c in s ensures '0' <= c <= '9' { assert IsDigit(c); } }
  }

  /** What parses is a numeral that fits, with a plus sign in front or without. */
  lemma ParsesNumerals(s: string)
    ensures ParseUnsigned(s).Some? ==> Numeral(s) || (s != "" && s[0] == '+' && Numeral(s[1..]))
    ensures Numeral(s) ==>
              AllDigits(s) && ParseUnsigned(s) == ParseUnsigned("+" + s)
              && ParseUnsigned(s) == if DigitsValue(s) <= 0xFFFF_FFFF_FFFF_FFFF then Some(DigitsValue(s)) else None
  {
    NumeralDigits(s);
    if StartsWith(s, "+") {
      assert s[0] == "+"[0];
      NumeralDigits(s[1..]);
    }
    assert ("+" + s)[1..] == s;
    if Numeral(s) { assert IsDigit(s[0]) && !StartsWith(s, "+"); }
  }

  const I64_MAX: int := 0x7FFF_FFFF_FFFF_FFFF

  /** `str::parse::<i64>`: one optional sign, then at least one digit. */
  function ParseSigned(s: string): Option<int> {
    var negative := StartsWith(s, "-");
    var digits := if negative || StartsWith(s, "+") then s[1..] else s;
    if digits == "" || !AllDigits(digits) then None
    else
      var n: int := if negative then 0 - DigitsValue(digits) else DigitsValue(digits);
      if -I64_MAX - 1 <= n <= I64_MAX then Some(n) else None
  }

  lemma {:induction false} DecIsDigits(n: nat)
    ensures Dec(n) != "" && AllDigits(Dec(n)) && DigitsValue(Dec(n)) == n
  {
    if n < 10 {
      assert Dec(n)[..0] == "";
    } else {
      DecIsDigits(n / 10);
      assert Dec(n)[..|Dec(n)| - 1] == Dec(n / 10);
    }
  }

  /** No zero in front: the shortest numeral of its value. */
  lemma {:induction false} DecHasNoLeadingZero(n: nat)
    ensures n > 0 ==> Dec(n)[0] != '0'
    ensures n == 0 ==> Dec(n) == "0"
  {
    if n >= 10 { DecHasNoLeadingZero(n / 10); }
  }

  lemma ParsePrinted(n: nat)
    requires n <= U64_MAX
    ensures ParseUnsigned(Dec(n)) == Some(n)
  {
    DecIsDigits(n);
    assert IsDigit(Dec(n)[0]);
  }

  /** Two strings that agree up to a delimiter neither first part contains
      have equal first and second parts. */
  lemma SplitAtDelimiter(a: string, x: string, b: string, y: string, delimiter: char)
    requires delimiter !in a && delimiter !in b
    requires a + [delimiter] + x == b + [delimiter] + y
    ensures a == b && x == y
  {
    var s := a + [delimiter] + x;
    var t := b + [delimiter] + y;
    assert s[|a|] == delimiter && t[|b|] == delimiter;
    assert |a| == |b|;
    assert a == s[..|a|] && b == t[..|b|];
    assert x == s[|a| + 1..] && y == t[|b| + 1..];
  }

  lemma DigitsHaveNo(s: string, c: char)
    requires AllDigits(s) && !IsDigit(c)
    ensures c !in s
  {
  }

  /** A signed integer as `format!` prints it. */
  function DecInt(n: int): string {
    if n < 0 then "-" + Dec(-n) else Dec(n)
  }

  lemma DecIntDistinct(m: int, n: int)
    requires DecInt(m) == DecInt(n)
    ensures m == n
  {
    DecIsDigits(if m < 0 then -m else m);
    DecIsDigits(if n < 0 then -n else n);
    assert m < 0 ==> DecInt(m)[1..] == Dec(-m);
    assert n < 0 ==> DecInt(n)[1..] == Dec(-n);
    assert m >= 0 ==> IsDigit(DecInt(m)[0]);
    assert n >= 0 ==> IsDigit(DecInt(n)[0]);
  }

  lemma DecIntHasNo(n: int, c: char)
    requires !IsDigit(c) && c != '-'
    ensures c !in DecInt(n)
  {
    DecIsDigits(if n < 0 then -n else n);
  }

  lemma ParseSignedPrinted(n: int)
    requires -I64_MAX - 1 <= n <= I64_MAX
    ensures ParseSigned(DecInt(n)) == Some(n)
  {
    DecIsDigits(if n < 0 then -n else n);
    if n < 0 {
      assert DecInt(n)[1..] == Dec(-n);
    } else {
      assert IsDigit(DecInt(n)[0]);
    }
  }

  /** A plus sign changes nothing, and nothing else may stand in front of the digits. */
  lemma ParsesSigned(s: string)
    ensures ParseSigned(s).Some? ==> Numeral(s) || (s != "" && s[0] in "+-" && Numeral(s[1..]))
    ensures Numeral(s) ==> ParseSigned("+" + s) == ParseSigned(s)
    ensures forall n | ParseSigned(s) == Some(n) :: -0x8000_0000_0000_0000 <= n <= 0x7FFF_FFFF_FFFF_FFFF
  {
    NumeralDigits(s);
    if s != "" {
      NumeralDigits(s[1..]);
      if StartsWith(s, "+") { assert s[0] == "+"[0]; }
      if StartsWith(s, "-") { assert s[0] == "-"[0]; }
    }
    assert ("+" + s)[1..] == s && ("+" + s)[0] == '+';
    if Numeral(s) { assert IsDigit(s[0]) && !StartsWith(s, "+") && !StartsWith(s, "-"); }
  }

  // Searching and splitting

  function IndexOf(s: string, c: char): (i: nat)
    ensures i <= |s|
    ensures c !in s[..i]
    ensures i < |s| ==> s[i] == c
  {
    if s == "" || s[0] == c then 0 else
      var i := 1 + IndexOf(s[1..], c);
      assert s[..i] == [s[0]] + s[1..][..i - 1];
      i
  }

  lemma IndexOfAppended(a: string, c: char, b: string)
    requires c !in a
    ensures IndexOf(a + [c] + b, c) == |a|
  {
    var s := a + [c] + b;
    var i := IndexOf(s, c);
    var found := s[..i];
    assert s[|a|] == c;
    assert forall k | 0 <= k < |found| :: found[k] != c;
    assert forall k | 0 <= k < |found| :: found[k] == s[k];
    assert forall k | 0 <= k < |a| :: s[k] == a[k] != c;
    assert i == |a|;
  }

  lemma CutAfter(a: string, c: char, b: string)
    ensures (a + [c] + b)[..|a|] == a && (a + [c] + b)[|a| + 1..] == b
  {
  }

  /** `str::split` on a character. */
  function SplitOn(s: string, c: char): (parts: seq<string>)
    ensures parts != []
    decreases |s|
  {
    var i := IndexOf(s, c);
    if i == |s| then [s] else [s[..i]] + SplitOn(s[i + 1..], c)
  }

  lemma SplitWhole(s: string, c: char)
    requires c !in s
    ensures SplitOn(s, c) == [s]
  {
    assert IndexOf(s, c) == |s|;
  }

  lemma SplitAppended(a: string, c: char, b: string)
    requires c !in a
    ensures SplitOn(a + [c] + b, c) == [a] + SplitOn(b, c)
  {
    IndexOfAppended(a, c, b);
    CutAfter(a, c, b);
  }

  /** Up to the slash after a first segment, `/x/` is there iff it is that segment. */
  lemma SegmentBefore(a: string, rest: string, x: string, i: nat)
    requires '/' !in a && '/' !in x && "/" <= rest && i <= |a|
    ensures ContainsAt("/" + a + rest, "/" + x + "/", i) <==> i == 0 && a == x
  {
    var t, part := "/" + a + rest, "/" + x + "/";
    assert t[|a| + 1] == '/' && t[1..|a| + 1] == a;
    assert forall k | 0 <= k < |a| :: t[k + 1] == a[k] && a[k] != '/';
    assert part[0] == '/' && part[|x| + 1] == '/' && part[1..|x| + 1] == x;
    if ContainsAt(t, part, i) {
      assert t[i..i + |part|][0] == '/';
      assert i == 0;
      assert t[|x| + 1] == part[|x| + 1] && t[1..|x| + 1] == x;
      assert forall k | 0 <= k < |x| :: x[k] == t[k + 1] && x[k] != '/';
      assert |x| == |a|;
    }
    if i == 0 && a == x { assert t[..|part|] == part; }
  }

  lemma SegmentAfter(a: string, rest: string, part: string, i: nat)
    requires i > |a|
    ensures ContainsAt("/" + a + rest, part, i) <==> ContainsAt(rest, part, i - |a| - 1)
  {
    var t, at := "/" + a + rest, i - |a| - 1;
    if i + |part| <= |t| { assert t[i..i + |part|] == rest[at..at + |part|]; }
  }

  lemma FirstSegment(a: string, rest: string, x: string)
    requires '/' !in a && '/' !in x && "/" <= rest
    ensures Contains("/" + a + rest, "/" + x + "/") <==> a == x || Contains(rest, "/" + x + "/")
  {
    var t, part := "/" + a + rest, "/" + x + "/";
    if Contains(t, part) {
      var i: nat :| i <= |t| && ContainsAt(t, part, i);
      if i <= |a| { SegmentBefore(a, rest, x, i); } else { SegmentAfter(a, rest, part, i); }
    }
    SegmentBefore(a, rest, x, 0);
    if Contains(rest, part) {
      var i: nat :| i <= |rest| && ContainsAt(rest, part, i);
      SegmentAfter(a, rest, part, i + |a| + 1);
    }
  }

  /** The parts between slashes are what stands between two slashes, once there is
      one in front and one behind. */
  lemma {:induction false} SegmentsBetween(s: string, x: string)
    requires '/' !in x
    ensures x in SplitOn(s, '/') <==> Contains("/" + s + "/", "/" + x + "/")
    decreases |s|
  {
    var i := IndexOf(s, '/');
    if i == |s| {
      assert s[..i] == s;
      FirstSegment(s, "/", x);
      assert !Contains("/", "/" + x + "/");
    } else {
      var a, b := s[..i], s[i + 1..];
      SegmentsBetween(b, x);
      FirstSegment(a, "/" + b + "/", x);
      assert s == a + "/" + b;
      assert "/" + s + "/" == "/" + a + ("/" + b + "/");
    }
  }

  // The order of keys

  predicate Less(a: string, b: string) {
    b != "" && (a == "" || a[0] < b[0] || (a[0] == b[0] && Less(a[1..], b[1..])))
  }

  /** The first characters that differ decide, and a string comes before its extensions. */
  lemma {:induction false} LessDecides(a: string, x: char, b: string, y: char, c: string)
    ensures Less(a + [x] + b, a + [y] + c) <==> x < y || (x == y && Less(b, c))
    ensures Less(a, a + [x] + b) && !Less(a + [x] + b, a)
  {
    var s, t := a + [x] + b, a + [y] + c;
    if a == "" {
      assert s[1..] == b && t[1..] == c;
    } else {
      LessDecides(a[1..], x, b, y, c);
      assert s[1..] == a[1..] + [x] + b && t[1..] == a[1..] + [y] + c;
    }
  }

  lemma {:induction false} LessIrreflexive(a: string)
    ensures !Less(a, a)
  {
    if a != "" { LessIrreflexive(a[1..]); }
  }

  lemma {:induction false} LessTransitive(a: string, b: string, c: string)
    requires Less(a, b) && Less(b, c)
    ensures Less(a, c)
  {
    if a != "" && a[0] == b[0] && b[0] == c[0] { LessTransitive(a[1..], b[1..], c[1..]); }
  }

  lemma {:induction false} LessTotal(a: string, b: string)
    ensures a == b || Less(a, b) || Less(b, a)
  {
    if a != "" && b != "" && a[0] == b[0] {
      LessTotal(a[1..], b[1..]);
      assert a == [a[0]] + a[1..] && b == [b[0]] + b[1..];
    }
  }
}
