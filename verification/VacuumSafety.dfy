/**
 A vacuum deletes nothing a version in the window needs, and a vacuum whose
 deletes all succeed leaves nothing else behind.
 */
module VacuumSafety {
  import opened Text
  import opened Paths
  import opened Manifest
  import opened TableProtocol
  import opened TableSafety

  ghost predicate CanonicalManifests(listing: seq<string>) {
    forall k | k in listing && ManifestVersion(k).Some? :: k == ManifestKey(ManifestVersion(k).value)
  }

  lemma {:induction false} VersionsListed(listing: seq<string>)
    ensures forall v :: v in ManifestVersions(listing) <==> exists k | k in listing :: ManifestVersion(k) == Some(v)
  {
    if listing != [] {
      VersionsListed(listing[1..]);
      forall v
        ensures v in ManifestVersions(listing) <==> exists k | k in listing :: ManifestVersion(k) == Some(v)
      {
        if exists k | k in listing :: ManifestVersion(k) == Some(v) {
          var k :| k in listing && ManifestVersion(k) == Some(v);
          assert k == listing[0] || k in listing[1..];
        }
      }
    }
  }

  lemma {:induction false} VersionsDistinct(listing: seq<string>)
    requires NoRepeats(listing) && CanonicalManifests(listing)
    ensures NoRepeats(ManifestVersions(listing))
  {
    if listing != [] {
      VersionsDistinct(listing[1..]);
      VersionsListed(listing[1..]);
      if ManifestVersion(listing[0]).Some? {
        var v := ManifestVersion(listing[0]).value;
        assert forall k | k in listing[1..] && ManifestVersion(k) == Some(v) :: k == listing[0];
      }
    }
  }

  lemma {:induction false} ReadAllMembers(store: Store, versions: seq<nat>)
    requires forall v | v in versions :: ReadVersion(store, v).Ok?
    ensures ReadAll(store, versions).Some?
    ensures forall m :: m in ReadAll(store, versions).value
                        <==> exists v | v in versions :: ReadVersion(store, v) == Ok(m)
  {
    if versions != [] {
      ReadAllMembers(store, versions[1..]);
      var all := ReadAll(store, versions).value;
      var first := ReadVersion(store, versions[0]).value;
      forall m ensures m in all <==> exists v | v in versions :: ReadVersion(store, v) == Ok(m) {
        assert m in all <==> m == first || m in all[1..];
        if exists v | v in versions :: ReadVersion(store, v) == Ok(m) {
          var v :| v in versions && ReadVersion(store, v) == Ok(m);
          assert v == versions[0] || v in versions[1..];
        }
      }
    }
  }

  ghost function Range(low: nat, high: nat): (r: set<nat>)
    ensures forall w :: w in r <==> low < w <= high
    ensures |r| == if low <= high then high - low else 0
  {
    if low >= high then {} else Range(low, high - 1) + {high}
  }

  lemma Subsets(a: set<nat>, b: set<nat>)
    requires a <= b
    ensures |a| <= |b|
  {
    assert b == a + (b - a);
  }

  /** With the window's manifests present, the versions dropped are those below it. */
  lemma DroppedBelowWindow(versions: seq<nat>, current: nat, v: nat)
    requires NoRepeats(versions)
    requires forall w | InWindow(w, current) :: w in versions
    ensures v in VersionsToDrop(versions, current, RETAINED_VERSIONS)
       <==> v in versions && v + RETAINED_VERSIONS <= current
  {
    VersionsToDropCounts(versions, current, RETAINED_VERSIONS, v);
    DistinctCounts(versions, v, current);
    var kept := FromTo(versions, v, current);
    if v in versions && v + RETAINED_VERSIONS <= current {
      var low := current - RETAINED_VERSIONS;
      forall w | w in Range(low, current) ensures w in kept { assert InWindow(w, current); }
      Subsets(Range(low, current) + {v}, kept);
    } else if v <= current {
      Subsets(kept, Range(v, current) + {v});
    }
  }

  ghost predicate ReadyToVacuum(s: State, listing: seq<string>) {
    Inv(s) && s.run.Flipped? && Lists(listing, s.store)
  }

  lemma ListedVersions(s: State, listing: seq<string>)
    requires ReadyToVacuum(s, listing)
    ensures NoRepeats(ManifestVersions(listing))
    ensures forall v :: v in ManifestVersions(listing) ==>
              1 <= v <= Current(s) && ManifestKey(v) in s.store && ManifestVersion(ManifestKey(v)) == Some(v)
    ensures forall v :: InWindow(v, Current(s)) ==> v in ManifestVersions(listing)
  {
    forall k | k in listing && ManifestVersion(k).Some?
      ensures k == ManifestKey(ManifestVersion(k).value) && 1 <= ManifestVersion(k).value <= Current(s)
    {
      assert KeyOk(s.store, k, Current(s));
      if KeyVersion(k).Some? { DataKeyKind(k); }
    }
    VersionsDistinct(listing);
    VersionsListed(listing);
    forall v | InWindow(v, Current(s)) ensures v in ManifestVersions(listing) {
      assert Held(s.store, VersionOf(s.published, v)) && WellMade(VersionOf(s.published, v), v);
      ManifestVersionOf(v);
      assert ManifestKey(v) in listing;
    }
  }

  lemma Plan(s: State, listing: seq<string>)
    requires ReadyToVacuum(s, listing)
    ensures forall v :: v in Doomed(listing, Current(s))
                        <==> v in ManifestVersions(listing) && v + RETAINED_VERSIONS <= Current(s)
    ensures forall v :: v in RetainedVersions(listing, Current(s)) <==> InWindow(v, Current(s))
  {
    ListedVersions(s, listing);
    var versions := ManifestVersions(listing);
    forall v: nat
      ensures v in Doomed(listing, Current(s)) <==> v in versions && v + RETAINED_VERSIONS <= Current(s)
    {
      DroppedBelowWindow(versions, Current(s), v);
    }
  }

  /** A vacuum after a flip reads exactly the window's manifests, none is missing. */
  lemma RetainedManifests(s: State, listing: seq<string>)
    requires ReadyToVacuum(s, listing)
    ensures ReadAll(s.store, RetainedVersions(listing, Current(s))).Some?
    ensures forall m :: m in ReadAll(s.store, RetainedVersions(listing, Current(s))).value
                        <==> exists v :: InWindow(v, Current(s)) && m == VersionOf(s.published, v).manifest
  {
    Plan(s, listing);
    var retained := RetainedVersions(listing, Current(s));
    forall v | v in retained ensures ReadVersion(s.store, v) == Ok(VersionOf(s.published, v).manifest) {
      assert InWindow(v, Current(s));
      assert Held(s.store, VersionOf(s.published, v)) && WellMade(VersionOf(s.published, v), v);
    }
    ReadAllMembers(s.store, retained);
  }

  lemma ReferencedInWindow(s: State, listing: seq<string>, key: string)
    requires ReadyToVacuum(s, listing)
    ensures ReadAll(s.store, RetainedVersions(listing, Current(s))).Some?
    ensures Referenced(ReadAll(s.store, RetainedVersions(listing, Current(s))).value, key)
       <==> exists v :: InWindow(v, Current(s)) && HasKey(VersionOf(s.published, v).manifest.files, key)
  {
    RetainedManifests(s, listing);
    var retained := ReadAll(s.store, RetainedVersions(listing, Current(s))).value;
    if Referenced(retained, key) {
      var m :| m in retained && HasKey(m.files, key);
      var v :| InWindow(v, Current(s)) && m == VersionOf(s.published, v).manifest;
    }
    if v :| InWindow(v, Current(s)) && HasKey(VersionOf(s.published, v).manifest.files, key) {
      assert VersionOf(s.published, v).manifest in retained;
    }
  }

  lemma ManifestPrefixKind(key: string)
    requires StartsWith(key, MANIFEST_PREFIX)
    ensures key != CURRENT_KEY && KeyVersion(key).None?
  {
    assert key[0] == '_' && key[1] == 'm';
  }

  lemma ManifestNamed(store: Store, key: string, version: nat)
    requires key in store && KeyOk(store, key, version) && StartsWith(key, MANIFEST_PREFIX)
    ensures ManifestVersion(key).Some? && 1 <= ManifestVersion(key).value <= version
    ensures key == ManifestKey(ManifestVersion(key).value)
  {
    ManifestPrefixKind(key);
  }

  /** A manifest present after a flip is named for a version up to current. */
  lemma PresentManifest(s: State, listing: seq<string>, key: string) returns (v: nat)
    requires ReadyToVacuum(s, listing) && key in s.store && StartsWith(key, MANIFEST_PREFIX)
    ensures 1 <= v <= Current(s) && key == ManifestKey(v) && v in ManifestVersions(listing)
  {
    ManifestNamed(s.store, key, Current(s));
    v := ManifestVersion(key).value;
    VersionsListed(listing);
  }

  lemma DroppedManifest(s: State, listing: seq<string>, key: string)
    requires ReadyToVacuum(s, listing) && key in s.store && StartsWith(key, MANIFEST_PREFIX)
    ensures key in ManifestKeys(Doomed(listing, Current(s)))
       <==> !exists v :: InWindow(v, Current(s)) && key == ManifestKey(v)
  {
    var v := PresentManifest(s, listing, key);
    Plan(s, listing);
    InKeys(Doomed(listing, Current(s)), key);
    forall w | key == ManifestKey(w) ensures w == v { ManifestKeysDiffer(v, w); }
    assert v in Doomed(listing, Current(s)) <==> !InWindow(v, Current(s));
  }

  lemma InKeys(versions: seq<nat>, key: string)
    ensures key in ManifestKeys(versions) <==> exists v | v in versions :: key == ManifestKey(v)
  {
    if v :| v in versions && key == ManifestKey(v) {
      var i :| 0 <= i < |versions| && versions[i] == v;
      assert ManifestKeys(versions)[i] == key;
    }
  }

  lemma TargetsSplit(s: State, listing: seq<string>, key: string)
    requires ReadyToVacuum(s, listing) && key in s.store
    ensures VacuumTargets(s.store, listing, Current(s)).Some?
    ensures key in VacuumTargets(s.store, listing, Current(s)).value
       <==> (key in ManifestKeys(Doomed(listing, Current(s)))
             || (!StartsWith(key, MANIFEST_PREFIX) && key != CURRENT_KEY
                 && !exists v :: InWindow(v, Current(s)) && HasKey(VersionOf(s.published, v).manifest.files, key)))
  {
    ReferencedInWindow(s, listing, key);
  }

  lemma SurvivingManifest(s: State, key: string)
    requires Inv(s) && StartsWith(key, MANIFEST_PREFIX)
    ensures Surviving(s, key) <==> exists v :: InWindow(v, Current(s)) && key == ManifestKey(v)
  {
    ManifestPrefixKind(key);
    NoFileIsManifest(s, key);
    if v :| InWindow(v, Current(s)) && key == ManifestKey(v) {
      assert NamedBy(VersionOf(s.published, v), v, key);
    }
  }

  lemma SurvivingFile(s: State, key: string)
    requires !StartsWith(key, MANIFEST_PREFIX) && key != CURRENT_KEY
    ensures Surviving(s, key)
       <==> exists v :: InWindow(v, Current(s)) && HasKey(VersionOf(s.published, v).manifest.files, key)
  {
    forall v ensures key != ManifestKey(v) { ManifestKeyKind(v); }
    if v :| InWindow(v, Current(s)) && HasKey(VersionOf(s.published, v).manifest.files, key) {
      assert NamedBy(VersionOf(s.published, v), v, key);
    }
  }

  lemma NoManifestTarget(versions: seq<nat>, key: string)
    requires !StartsWith(key, MANIFEST_PREFIX)
    ensures key !in ManifestKeys(versions)
  {
    InKeys(versions, key);
    forall v ensures key != ManifestKey(v) { ManifestKeyKind(v); }
  }

  /** The targets of a vacuum are exactly the keys that should not survive. */
  lemma TargetsExactly(s: State, listing: seq<string>, key: string)
    requires ReadyToVacuum(s, listing) && key in s.store
    ensures VacuumTargets(s.store, listing, Current(s)).Some?
    ensures key in VacuumTargets(s.store, listing, Current(s)).value <==> !Surviving(s, key)
  {
    TargetsSplit(s, listing, key);
    if StartsWith(key, MANIFEST_PREFIX) {
      DroppedManifest(s, listing, key);
      SurvivingManifest(s, key);
    } else {
      NoManifestTarget(Doomed(listing, Current(s)), key);
      if key != CURRENT_KEY { SurvivingFile(s, key); }
    }
  }

  lemma NoFileIsManifest(s: State, key: string)
    requires Inv(s) && StartsWith(key, MANIFEST_PREFIX)
    ensures !exists v :: InWindow(v, Current(s)) && HasKey(VersionOf(s.published, v).manifest.files, key)
  {
    forall v | InWindow(v, Current(s)) ensures !HasKey(VersionOf(s.published, v).manifest.files, key) {
      assert WellMade(VersionOf(s.published, v), v);
      if KeyVersion(key).Some? { DataKeyKind(key); }
    }
  }

  lemma SurvivorsPresent(s: State, key: string)
    requires Inv(s) && s.published != [] && Surviving(s, key)
    ensures key in s.store
  {
    if key != CURRENT_KEY {
      var v :| InWindow(v, Current(s)) && NamedBy(VersionOf(s.published, v), v, key);
      assert Held(s.store, VersionOf(s.published, v)) && WellMade(VersionOf(s.published, v), v);
    }
  }

  lemma TargetsPresent(s: State, listing: seq<string>, key: string)
    requires ReadyToVacuum(s, listing)
    requires VacuumTargets(s.store, listing, Current(s)).Some?
    requires key in VacuumTargets(s.store, listing, Current(s)).value
    ensures key in s.store
  {
    InKeys(Doomed(listing, Current(s)), key);
    Plan(s, listing);
    ListedVersions(s, listing);
  }

  /** A listing always yields a plan, and the plan keeps the invariant. */
  lemma StartVacuumKeeps(s: State, listing: seq<string>)
    requires ReadyToVacuum(s, listing)
    ensures Enabled(s, StartVacuum(listing)) && Inv(Next(s, StartVacuum(listing)))
  {
    ReferencedInWindow(s, listing, CURRENT_KEY);
    var targets := VacuumTargets(s.store, listing, Current(s)).value;
    var t := Next(s, StartVacuum(listing));
    forall key | key in targets ensures !Surviving(t, key) {
      TargetsPresent(s, listing, key);
      TargetsExactly(s, listing, key);
    }
  }

  ghost function Removed(store: Store, targets: seq<string>): Store {
    map k | k in store && k !in targets :: store[k]
  }

  /** After every target is gone, the keys are exactly the pointer, the
      window's manifests, and the files they name. */
  lemma VacuumExact(s: State, listing: seq<string>)
    requires ReadyToVacuum(s, listing)
    ensures VacuumTargets(s.store, listing, Current(s)).Some?
    ensures forall key :: key in Removed(s.store, VacuumTargets(s.store, listing, Current(s)).value)
                          <==> Surviving(s, key)
  {
    ReferencedInWindow(s, listing, CURRENT_KEY);
    forall key
      ensures key in Removed(s.store, VacuumTargets(s.store, listing, Current(s)).value) <==> Surviving(s, key)
    {
      if key in s.store {
        TargetsExactly(s, listing, key);
      } else if Surviving(s, key) {
        SurvivorsPresent(s, key);
      }
    }
  }
}
