/**
 Table manifests: what a version of a table is made of, how a run folds a
 mapping's output into the file list, and what a vacuum may delete.
 */
module Manifest {
  import opened Text

  const CURRENT_KEY := "_current.json"
  const MANIFEST_PREFIX := "_manifests/"
  const RETAINED_VERSIONS: nat := 10

  /** One Parquet object of a version; the key is relative to the table. */
  datatype ManifestFile = ManifestFile(key: string, mapping: string, bytes: nat)

  datatype TableManifest = TableManifest(version: nat, createdAt: string, files: seq<ManifestFile>)

  /** Version 0: what a table that was never published looks like. */
  const EMPTY_MANIFEST := TableManifest(0, "", [])

  function ManifestKey(version: nat): string {
    MANIFEST_PREFIX + Dec(version) + ".json"
  }

  /** The version a vacuum reads off a manifest's key. */
  function ManifestVersion(key: string): Option<nat> {
    if StartsWith(key, MANIFEST_PREFIX) then
      var name := key[|MANIFEST_PREFIX|..];
      if EndsWith(name, ".json") then ParseUnsigned(name[..|name| - 5]) else None
    else None
  }

  /** Manifest names parse back to the version they were made from. */
  lemma ManifestVersionOf(version: nat)
    requires version <= U64_MAX
    ensures ManifestVersion(ManifestKey(version)) == Some(version)
  {
    ParsePrinted(version);
    var key := ManifestKey(version);
    var name := key[|MANIFEST_PREFIX|..];
    assert name == Dec(version) + ".json";
    assert name[..|name| - 5] == Dec(version);
  }

  lemma ManifestKeysDiffer(v: nat, w: nat)
    requires ManifestKey(v) == ManifestKey(w)
    ensures v == w
  {
    var p := |MANIFEST_PREFIX|;
    assert ManifestKey(v)[p..] == Dec(v) + ['.'] + "json";
    assert ManifestKey(w)[p..] == Dec(w) + ['.'] + "json";
    DecIsDigits(v);
    DecIsDigits(w);
    DigitsHaveNo(Dec(v), '.');
    DigitsHaveNo(Dec(w), '.');
    SplitAtDelimiter(Dec(v), "json", Dec(w), "json", '.');
  }

  // Folding a mapping's files into a list

  /** The files other mappings own. */
  function Others(files: seq<ManifestFile>, mapping: string): (others: seq<ManifestFile>)
    ensures forall f :: f in others <==> f in files && f.mapping != mapping
  {
    if files == [] then []
    else (if files[0].mapping != mapping then [files[0]] else []) + Others(files[1..], mapping)
  }

  function Insert(f: ManifestFile, sorted: seq<ManifestFile>): (r: seq<ManifestFile>)
    ensures multiset(r) == multiset{f} + multiset(sorted)
  {
    if sorted == [] || !Less(sorted[0].key, f.key) then [f] + sorted
    else
      assert sorted == [sorted[0]] + sorted[1..];
      [sorted[0]] + Insert(f, sorted[1..])
  }

  /** `sort_by` on the key: stable, so equal keys keep their order. */
  function SortByKey(files: seq<ManifestFile>): (r: seq<ManifestFile>)
    ensures multiset(r) == multiset(files)
  {
    if files == [] then [] else
      assert files == [files[0]] + files[1..];
      Insert(files[0], SortByKey(files[1..]))
  }

  /** Replace one mapping's files and keep everyone else's. */
  function ApplyMappingWrites(previous: seq<ManifestFile>, mapping: string, files: seq<ManifestFile>)
    : seq<ManifestFile>
  {
    SortByKey(Others(previous, mapping) + files)
  }

  predicate StrictlySorted(files: seq<ManifestFile>) {
    forall i, j | 0 <= i < j < |files| :: Less(files[i].key, files[j].key)
  }

  predicate DistinctKeys(files: seq<ManifestFile>) {
    forall i, j | 0 <= i < j < |files| :: files[i].key != files[j].key
  }

  predicate HasKey(files: seq<ManifestFile>, key: string) {
    exists f | f in files :: f.key == key
  }

  lemma {:induction false} SortedMembers(files: seq<ManifestFile>)
    ensures forall f :: f in SortByKey(files) <==> f in files
    ensures |SortByKey(files)| == |files|
  {
    forall f ensures f in SortByKey(files) <==> f in files {
      assert f in SortByKey(files) <==> f in multiset(SortByKey(files));
    }
    assert |multiset(SortByKey(files))| == |multiset(files)|;
  }

  lemma {:induction false} InsertSorted(f: ManifestFile, sorted: seq<ManifestFile>)
    requires StrictlySorted(sorted) && !HasKey(sorted, f.key)
    ensures StrictlySorted(Insert(f, sorted))
  {
    var r := Insert(f, sorted);
    if sorted == [] {
    } else if !Less(sorted[0].key, f.key) {
      assert sorted[0] in sorted;
      LessTotal(sorted[0].key, f.key);
      forall j | 0 < j < |r| ensures Less(f.key, r[j].key) {
        if j > 1 { LessTransitive(f.key, sorted[0].key, sorted[j - 1].key); }
      }
    } else {
      InsertSorted(f, sorted[1..]);
      InsertedAbove(f, sorted);
    }
  }

  lemma InsertedAbove(f: ManifestFile, sorted: seq<ManifestFile>)
    requires StrictlySorted(sorted) && sorted != [] && Less(sorted[0].key, f.key)
    ensures forall g | g in Insert(f, sorted[1..]) :: Less(sorted[0].key, g.key)
  {
    forall g | g in Insert(f, sorted[1..]) ensures Less(sorted[0].key, g.key) {
      assert g in multiset(Insert(f, sorted[1..]));
      assert g == f || g in sorted[1..];
    }
  }

  /** Distinct keys sort strictly. */
  lemma {:induction false} SortStrictly(files: seq<ManifestFile>)
    requires DistinctKeys(files)
    ensures StrictlySorted(SortByKey(files))
  {
    if files != [] {
      SortStrictly(files[1..]);
      SortedMembers(files[1..]);
      InsertSorted(files[0], SortByKey(files[1..]));
    }
  }

  /** A strictly sorted list is determined by the files in it. */
  lemma {:induction false} SortedUnique(a: seq<ManifestFile>, b: seq<ManifestFile>)
    requires StrictlySorted(a) && StrictlySorted(b)
    requires forall f :: f in a <==> f in b
    ensures a == b
  {
    assert (|a| > 0 ==> a[0] in a) && (|b| > 0 ==> b[0] in b);
    if a != [] && b != [] {
      FirstIsLeast(a, b);
      FirstIsLeast(b, a);
      if a[0].key != b[0].key {
        LessTransitive(a[0].key, b[0].key, a[0].key);
        LessIrreflexive(a[0].key);
      }
      SameHead(a, b);
      forall f ensures f in a[1..] <==> f in b[1..] {
        TailMembers(a, f);
        TailMembers(b, f);
      }
      SortedUnique(a[1..], b[1..]);
    }
  }

  lemma FirstIsLeast(a: seq<ManifestFile>, b: seq<ManifestFile>)
    requires StrictlySorted(a) && a != [] && b != []
    requires b[0] in a
    ensures a[0].key == b[0].key || Less(a[0].key, b[0].key)
  {
  }

  lemma SameHead(a: seq<ManifestFile>, b: seq<ManifestFile>)
    requires StrictlySorted(a) && a != [] && b != []
    requires b[0] in a && a[0].key == b[0].key
    ensures a[0] == b[0]
  {
    var i :| 0 <= i < |a| && a[i] == b[0];
    if i > 0 { LessIrreflexive(a[0].key); }
  }

  lemma TailMembers(a: seq<ManifestFile>, f: ManifestFile)
    requires StrictlySorted(a) && a != []
    ensures f in a[1..] <==> f in a && f != a[0]
  {
    if a[0] in a[1..] {
      var i :| 1 <= i < |a| && a[i] == a[0];
      LessIrreflexive(a[0].key);
    }
    assert a == [a[0]] + a[1..];
  }

  lemma StrictlySortedDistinct(files: seq<ManifestFile>)
    requires StrictlySorted(files)
    ensures DistinctKeys(files)
  {
    forall i, j | 0 <= i < j < |files| ensures files[i].key != files[j].key {
      LessIrreflexive(files[i].key);
    }
  }

  lemma {:induction false} OthersDistinct(files: seq<ManifestFile>, mapping: string)
    requires DistinctKeys(files)
    ensures DistinctKeys(Others(files, mapping))
  {
    if files != [] {
      OthersDistinct(files[1..], mapping);
      var others := Others(files, mapping);
      if files[0].mapping != mapping {
        var rest := Others(files[1..], mapping);
        forall j | 0 <= j < |rest| ensures rest[j].key != files[0].key {
          assert rest[j] in rest;
          assert rest[j] in files[1..];
        }
      }
    }
  }

  /** The folded list has exactly the other mappings' files and the new ones,
      strictly sorted, when the new keys are fresh. */
  lemma ApplyMappingWritesContent(previous: seq<ManifestFile>, mapping: string, files: seq<ManifestFile>)
    requires StrictlySorted(previous) && DistinctKeys(files)
    requires forall f, g | f in previous && f.mapping != mapping && g in files :: f.key != g.key
    ensures StrictlySorted(ApplyMappingWrites(previous, mapping, files))
    ensures forall f :: f in ApplyMappingWrites(previous, mapping, files)
                        <==> (f in previous && f.mapping != mapping) || f in files
  {
    var others := Others(previous, mapping);
    StrictlySortedDistinct(previous);
    OthersDistinct(previous, mapping);
    var all := others + files;
    forall i, j | 0 <= i < j < |all| ensures all[i].key != all[j].key {
      if i < |others| <= j {
        assert all[i] in others && all[j] in files;
      }
    }
    SortStrictly(all);
    SortedMembers(all);
  }

  // Retention

  function InsertNat(v: nat, sorted: seq<nat>): (r: seq<nat>)
    ensures multiset(r) == multiset{v} + multiset(sorted)
  {
    if sorted == [] || v <= sorted[0] then [v] + sorted
    else
      assert sorted == [sorted[0]] + sorted[1..];
      [sorted[0]] + InsertNat(v, sorted[1..])
  }

  /** `sort_unstable`. */
  function SortNats(versions: seq<nat>): (r: seq<nat>)
    ensures multiset(r) == multiset(versions)
  {
    if versions == [] then [] else
      assert versions == [versions[0]] + versions[1..];
      InsertNat(versions[0], SortNats(versions[1..]))
  }

  function UpTo(versions: seq<nat>, current: nat): (r: seq<nat>)
    ensures forall v :: v in r <==> v in versions && v <= current
  {
    if versions == [] then []
    else (if versions[0] <= current then [versions[0]] else []) + UpTo(versions[1..], current)
  }

  /** Everything at or below `current` except the `retain` newest. */
  function VersionsToDrop(versions: seq<nat>, current: nat, retain: nat): seq<nat> {
    ButLast(UpTo(SortNats(versions), current), retain)
  }

  predicate Ascending(versions: seq<nat>) {
    forall i, j | 0 <= i < j < |versions| :: versions[i] <= versions[j]
  }

  lemma SortNatsMembers(versions: seq<nat>)
    ensures forall v :: v in SortNats(versions) <==> v in versions
  {
    forall v ensures v in SortNats(versions) <==> v in versions {
      assert v in SortNats(versions) <==> v in multiset(SortNats(versions));
    }
  }

  lemma {:induction false} InsertNatAscending(v: nat, sorted: seq<nat>)
    requires Ascending(sorted)
    ensures Ascending(InsertNat(v, sorted))
  {
    if sorted != [] && v > sorted[0] {
      InsertNatAscending(v, sorted[1..]);
      var tail := InsertNat(v, sorted[1..]);
      forall j | 0 <= j < |tail| ensures sorted[0] <= tail[j] {
        assert tail[j] in multiset(tail);
        assert tail[j] == v || tail[j] in sorted[1..];
      }
    }
  }

  lemma {:induction false} SortNatsAscending(versions: seq<nat>)
    ensures Ascending(SortNats(versions))
  {
    if versions != [] {
      SortNatsAscending(versions[1..]);
      InsertNatAscending(versions[0], SortNats(versions[1..]));
    }
  }

  lemma {:induction false} UpToAscending(versions: seq<nat>, current: nat)
    requires Ascending(versions)
    ensures Ascending(UpTo(versions, current))
  {
    if versions != [] {
      UpToAscending(versions[1..], current);
      var rest := UpTo(versions[1..], current);
      forall j | 0 <= j < |rest| ensures versions[0] <= rest[j] {
        assert rest[j] in rest;
      }
    }
  }

  /** How many entries of the list lie between `v` and `current`, repeats included. */
  function AtLeast(versions: seq<nat>, v: nat, current: nat): nat {
    if versions == [] then 0
    else (if v <= versions[0] <= current then 1 else 0) + AtLeast(versions[1..], v, current)
  }

  lemma {:induction false} InsertCounts(x: nat, sorted: seq<nat>, v: nat, current: nat)
    ensures AtLeast(InsertNat(x, sorted), v, current) == AtLeast([x] + sorted, v, current)
  {
    assert ([x] + sorted)[1..] == sorted;
    if sorted != [] && x > sorted[0] {
      InsertCounts(x, sorted[1..], v, current);
      assert InsertNat(x, sorted)[1..] == InsertNat(x, sorted[1..]);
      assert ([x] + sorted[1..])[1..] == sorted[1..];
    }
  }

  lemma {:induction false} SortCounts(versions: seq<nat>, v: nat, current: nat)
    ensures AtLeast(SortNats(versions), v, current) == AtLeast(versions, v, current)
  {
    if versions != [] {
      SortCounts(versions[1..], v, current);
      InsertCounts(versions[0], SortNats(versions[1..]), v, current);
      assert ([versions[0]] + SortNats(versions[1..]))[1..] == SortNats(versions[1..]);
    }
  }

  lemma {:induction false} UpToCounts(versions: seq<nat>, v: nat, current: nat)
    ensures AtLeast(UpTo(versions, current), v, current) == AtLeast(versions, v, current)
  {
    if versions != [] {
      UpToCounts(versions[1..], v, current);
      if versions[0] <= current {
        assert UpTo(versions, current)[1..] == UpTo(versions[1..], current);
      } else {
        assert UpTo(versions, current) == UpTo(versions[1..], current);
      }
    }
  }

  /** In a sorted list the entries from `v` on are those behind its first place. */
  lemma {:induction false} CountsBehind(sorted: seq<nat>, p: nat, v: nat, current: nat)
    requires Ascending(sorted) && p <= |sorted| && forall w | w in sorted :: w <= current
    requires (forall i | 0 <= i < p :: sorted[i] < v) && forall i | p <= i < |sorted| :: v <= sorted[i]
    ensures AtLeast(sorted, v, current) == |sorted| - p
  {
    if sorted != [] {
      assert sorted[0] in sorted;
      assert forall w | w in sorted[1..] :: w in sorted;
      CountsBehind(sorted[1..], if p == 0 then 0 else p - 1, v, current);
    }
  }

  lemma {:induction false} FirstPlace(sorted: seq<nat>, v: nat) returns (p: nat)
    requires Ascending(sorted) && v in sorted
    ensures p < |sorted| && sorted[p] == v && forall i | 0 <= i < p :: sorted[i] < v
  {
    if sorted[0] == v {
      p := 0;
    } else {
      p := FirstPlace(sorted[1..], v);
      p := p + 1;
    }
  }

  /** Everything but the `retain` last. */
  function ButLast(sorted: seq<nat>, retain: nat): seq<nat> {
    sorted[..if |sorted| < retain then 0 else |sorted| - retain]
  }

  lemma ButLastCounts(sorted: seq<nat>, retain: nat, v: nat, current: nat)
    requires Ascending(sorted) && forall w | w in sorted :: w <= current
    ensures v in ButLast(sorted, retain) <==> v in sorted && AtLeast(sorted, v, current) > retain
  {
    if v in sorted {
      var p := FirstPlace(sorted, v);
      CountsBehind(sorted, p, v, current);
      var dropped := ButLast(sorted, retain);
      assert p < |dropped| ==> dropped[p] == v;
      assert forall i | 0 <= i < |dropped| :: dropped[i] == v ==> p <= i;
    }
  }

  /** A version is dropped iff more than `retain` entries of the list lie between it
      and current, itself included; names that parse alike count each. */
  lemma VersionsToDropCounts(versions: seq<nat>, current: nat, retain: nat, v: nat)
    ensures v in VersionsToDrop(versions, current, retain)
       <==> v in versions && v <= current && AtLeast(versions, v, current) > retain
  {
    SortNatsAscending(versions);
    SortNatsMembers(versions);
    UpToAscending(SortNats(versions), current);
    ButLastCounts(UpTo(SortNats(versions), current), retain, v, current);
    UpToCounts(SortNats(versions), v, current);
    SortCounts(versions, v, current);
  }

  /** The versions from `v` to `current`. */
  function FromTo(versions: seq<nat>, v: nat, current: nat): set<nat> {
    set w | w in versions && v <= w <= current
  }

  lemma FromToSplits(versions: seq<nat>, v: nat, current: nat)
    requires versions != []
    ensures FromTo(versions, v, current)
         == FromTo(versions[1..], v, current) + if v <= versions[0] <= current then {versions[0]} else {}
  {
    assert forall w :: w in versions <==> w == versions[0] || w in versions[1..];
  }

  lemma {:induction false} DistinctCounts(versions: seq<nat>, v: nat, current: nat)
    requires NoRepeats(versions)
    ensures AtLeast(versions, v, current) == |FromTo(versions, v, current)|
  {
    if versions != [] {
      DistinctCounts(versions[1..], v, current);
      FromToSplits(versions, v, current);
      assert versions[0] !in FromTo(versions[1..], v, current);
    }
  }

  // Orphans

  /** The keys no retained manifest names, manifests and pointer apart. */
  function UnreferencedKeys(retained: seq<TableManifest>, present: seq<string>): (r: seq<string>)
    ensures forall k :: k in r <==> k in present && !("_manifests/" <= k) && k != "_current.json"
                                    && !exists m, f | m in retained && f in m.files :: f.key == k
  {
    if present == [] then []
    else
      var k := present[0];
      (if !StartsWith(k, MANIFEST_PREFIX) && k != CURRENT_KEY && !Referenced(retained, k) then [k] else [])
      + UnreferencedKeys(retained, present[1..])
  }

  predicate Referenced(retained: seq<TableManifest>, key: string) {
    exists m | m in retained :: HasKey(m.files, key)
  }
}
