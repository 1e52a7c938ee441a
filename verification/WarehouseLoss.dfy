/**
 When a published version can be lost. A vacuum deletes what no version of its own
 table names, another table's pointer or manifest included, and a table with a
 slash in its id publishes files that are not there. No run loses anything exactly
 when no id has a slash and a prefix that begins another's shelters it.
 */
module WarehouseLoss {
  import opened Text
  import opened Paths
  import opened Manifest
  import opened VacuumSafety
  import opened TableShadow
  import opened Warehouse
  import opened WarehouseNesting
  import opened WarehouseShelter

  // What a reader is owed

  /** The manifest of a version and all its files are there, of the sizes recorded. */
  ghost predicate Whole(store: T.Store, v: nat) {
    && T.ReadVersion(store, v).Ok? && T.ReadVersion(store, v).value.version == v
    && forall f | f in T.ReadVersion(store, v).value.files ::
         T.HoldsData(store, f.key) && |store[f.key].data| == f.bytes
  }

  /** Every version a reader can ask for. */
  ghost predicate Intact(s: State, site: Site) {
    && CurrentOf(s, site).Ok?
    && forall v | TableSafety.InWindow(v, CurrentOf(s, site).value.version) :: Whole(Under(s.objects, Root(site)), v)
  }

  /** The same manifest, and the same bytes under every key it names. */
  ghost predicate Unchanged(before: T.Store, after: T.Store, v: nat) {
    && T.ReadVersion(before, v).Ok? && T.ReadVersion(after, v) == T.ReadVersion(before, v)
    && forall f | f in T.ReadVersion(before, v).value.files ::
         f.key in before && f.key in after && after[f.key] == before[f.key]
  }

  /** Later the table is whole, no older, and its versions are what they were. */
  ghost predicate Keeps(s: State, t: State, site: Site) {
    && Intact(s, site) && Intact(t, site)
    && CurrentOf(s, site).value.version <= CurrentOf(t, site).value.version
    && forall v | 1 <= v <= CurrentOf(s, site).value.version && TableSafety.InWindow(v, CurrentOf(t, site).value.version) ::
         Unchanged(Under(s.objects, Root(site)), Under(t.objects, Root(site)), v)
  }

  ghost predicate KeepsAlong(path: seq<State>, site: Site) {
    forall i, k | 0 <= i <= k < |path| :: Keeps(path[i], path[k], site)
  }

  ghost predicate NothingLost(sites: set<Site>) {
    forall path: seq<State>, events: seq<Event>, site | Behavior(sites, path, events) && site in sites ::
      KeepsAlong(path, site)
  }

  // Harmless tables lose nothing

  lemma ReadsOwn(objects: Objects, root: string, v: nat)
    ensures T.ReadCurrent(Own(objects, root)) == T.ReadCurrent(Under(objects, root))
    ensures T.ReadVersion(Own(objects, root), v) == T.ReadVersion(Under(objects, root), v)
    ensures forall k | k in Own(objects, root) :: k in Under(objects, root) && Own(objects, root)[k] == Under(objects, root)[k]
  {
    SameCurrent(objects, root);
    SameReads(objects, root, v);
    OwnIs(objects, root);
  }

  lemma WholeUnder(objects: Objects, root: string, v: nat)
    requires Whole(Own(objects, root), v)
    ensures Whole(Under(objects, root), v)
  {
    ReadsOwn(objects, root, v);
  }

  lemma UnchangedUnder(before: Objects, after: Objects, root: string, v: nat)
    requires Unchanged(Own(before, root), Own(after, root), v)
    ensures Unchanged(Under(before, root), Under(after, root), v)
  {
    ReadsOwn(before, root, v);
    ReadsOwn(after, root, v);
  }

  lemma ShadowWhole(shadow: seq<T.State>, requests: seq<Option<T.Event>>, i: nat, v: nat)
    requires Follows(shadow, requests) && i < |shadow| && TableSafety.InWindow(v, TableSafety.Current(shadow[i]))
    ensures Whole(shadow[i].store, v)
  {
    var j := ShadowTimeTravel(shadow, requests, i, v);
  }

  /** A version in the window now was in the window since it was published. */
  lemma ShadowUnchanged(shadow: seq<T.State>, requests: seq<Option<T.Event>>, i: nat, k: nat, v: nat)
    requires Follows(shadow, requests) && i <= k < |shadow|
    requires 1 <= v <= TableSafety.Current(shadow[i]) && TableSafety.InWindow(v, TableSafety.Current(shadow[k]))
    ensures Unchanged(shadow[i].store, shadow[k].store, v)
  {
    ShadowInv(shadow, requests, i);
    ShadowInv(shadow, requests, k);
    ShadowMonotone(shadow, requests, i, k);
    SameHeld(shadow[i], shadow[k], v);
  }

  lemma SameHeld(s: T.State, t: T.State, v: nat)
    requires TableSafety.Inv(s) && TableSafety.Inv(t) && s.published <= t.published
    requires 1 <= v <= TableSafety.Current(s) && TableSafety.InWindow(v, TableSafety.Current(t))
    ensures Unchanged(s.store, t.store, v)
  {
    var snapshot := TableSafety.VersionOf(s.published, v);
    assert snapshot == TableSafety.VersionOf(t.published, v) && TableSafety.WellMade(snapshot, v);
    assert TableSafety.InWindow(v, TableSafety.Current(s));
    assert TableSafety.Held(s.store, snapshot) && TableSafety.Held(t.store, snapshot);
  }

  lemma ShadowIntact(s: State, site: Site, shadow: seq<T.State>, requests: seq<Option<T.Event>>, i: nat)
    requires Follows(shadow, requests) && i < |shadow| && shadow[i].store == Own(s.objects, Root(site))
    ensures Intact(s, site) && CurrentOf(s, site).value.version == TableSafety.Current(shadow[i])
  {
    ShadowIsolation(shadow, requests, i);
    SameCurrent(s.objects, Root(site));
    forall v | TableSafety.InWindow(v, TableSafety.Current(shadow[i])) ensures Whole(Under(s.objects, Root(site)), v) {
      ShadowWhole(shadow, requests, i, v);
      WholeUnder(s.objects, Root(site), v);
    }
  }

  lemma HarmlessKeeps(sites: set<Site>, path: seq<State>, events: seq<Event>, site: Site, i: nat, k: nat)
    requires Harmless(sites) && Behavior(sites, path, events) && site in sites && i <= k < |path|
    ensures Keeps(path[i], path[k], site)
  {
    var shadow := OwnShadow(sites, path, events, site);
    var requests := RequestsOf(OwnEvents(events), site);
    ShadowIntact(path[i], site, shadow, requests, i);
    ShadowIntact(path[k], site, shadow, requests, k);
    ShadowMonotone(shadow, requests, i, k);
    forall v | 1 <= v <= CurrentOf(path[i], site).value.version
               && TableSafety.InWindow(v, CurrentOf(path[k], site).value.version)
      ensures Unchanged(Under(path[i].objects, Root(site)), Under(path[k].objects, Root(site)), v)
    {
      ShadowUnchanged(shadow, requests, i, k, v);
      UnchangedUnder(path[i].objects, path[k].objects, Root(site), v);
    }
  }

  // A vacuum reaches another table's pointer or manifest

  /** A vacuum is to delete whatever is under its prefix that no version it retains
      names, manifests and pointer of its own apart. */
  lemma StrangerIsTarget(objects: Objects, site: Site, key: string, listing: seq<string>, current: nat)
    requires Root(site) + key in objects && !StartsWith(key, MANIFEST_PREFIX) && key != CURRENT_KEY
    requires var store := Under(objects, Root(site));
             && T.Lists(listing, store) && T.VacuumTargets(store, listing, current).Some?
             && !Referenced(T.ReadAll(store, T.RetainedVersions(listing, current)).value, key)
    ensures key in T.VacuumTargets(Under(objects, Root(site)), listing, current).value
  {
    assert key in Under(objects, Root(site));
  }

  /** The table has published one file, and nothing else is a manifest to it. */
  ghost predicate OneVersion(store: T.Store, m: TableManifest) {
    && ManifestKey(1) in store && store[ManifestKey(1)] == T.ManifestDoc(m)
    && forall k | k in store && ManifestVersion(k).Some? :: ManifestVersion(k).value == 1
  }

  lemma RetainsOne(store: T.Store, m: TableManifest, listing: seq<string>)
    requires OneVersion(store, m) && T.Lists(listing, store)
    ensures T.VacuumTargets(store, listing, 1).Some?
    ensures forall r | r in T.ReadAll(store, T.RetainedVersions(listing, 1)).value :: r == m
  {
    VersionsListed(listing);
    forall v | v in T.RetainedVersions(listing, 1) ensures T.ReadVersion(store, v) == Ok(m) {
      var k :| k in listing && ManifestVersion(k) == Some(v);
      assert k in store;
    }
    ReadAllMembers(store, T.RetainedVersions(listing, 1));
  }

  lemma {:induction false} ListOf(names: set<string>) returns (listing: seq<string>)
    ensures NoRepeats(listing) && forall k :: k in listing <==> k in names
  {
    if names == {} {
      listing := [];
    } else {
      var k :| k in names;
      var rest := ListOf(names - {k});
      listing := [k] + rest;
    }
  }

  lemma EndsLater(a: string, b: string, end: string)
    requires EndsWith(b, end)
    ensures EndsWith(a + b, end)
  {
    assert (a + b)[|a + b| - |end|..] == b[|b| - |end|..];
  }

  /** Wherever an upload goes, its key is a Parquet file's, and so is the key recorded. */
  lemma TargetEnds(site: Site, mapping: string)
    ensures EndsWith(Target(site, 1, [], [], mapping).1, ".parquet")
    ensures EndsWith(site.prefix + Target(site, 1, [], [], mapping).0, ".parquet")
  {
    var (full, relative) := Target(site, 1, [], [], mapping);
    RecordedIs(site.table, 1, [], [], mapping);
    EndsLater(mapping, ".parquet", ".parquet");
    EndsLater(HivePath([], []), mapping + ".parquet", ".parquet");
    EndsLater(Tail(site.table), HivePath([], []) + (mapping + ".parquet"), ".parquet");
    EndsLater(VersionPrefix(1), Tail(site.table) + (HivePath([], []) + (mapping + ".parquet")), ".parquet");
    var head := SplitOnce(PartitionKey(site.table, [], [], mapping)).value.0;
    assert full == head + "/" + relative;
    EndsLater(head + "/", relative, ".parquet");
    EndsLater(site.prefix, full, ".parquet");
  }

  /** `key` is the pointer or the first manifest, in full. */
  ghost predicate KeptBy(site: Site, key: string) {
    key == Root(site) + ManifestKey(1) || key == Root(site) + CURRENT_KEY
  }

  /** What is in the bucket once a table has published one file. */
  lemma PublishedKeys(s: State, site: Site, mapping: string, data: Bytes, key: string)
    requires key in Then(s, site, mapping, data, 5).objects
    ensures key in s.objects || EndsWith(key, ".parquet") || KeptBy(site, key)
  {
    TargetEnds(site, mapping);
  }

  /** `key`, relative to the hunter, is kept by the victim and a stranger to the hunter,
      which takes nothing the victim keeps for its own. */
  ghost predicate Hunts(hunter: Site, victim: Site, key: string) {
    && hunter != victim && key != "" && key[|key| - 1] == 'n'
    && !StartsWith(key, MANIFEST_PREFIX) && key != CURRENT_KEY && KeptBy(victim, Root(hunter) + key)
    && forall k | KeptBy(victim, Root(hunter) + k) :: ManifestVersion(k).None? && k != CURRENT_KEY
  }

  ghost function VictimPublished(victim: Site): State {
    Then(State(map[], map[]), victim, "m", [], 5)
  }

  ghost function BothPublished(hunter: Site, victim: Site): State {
    Then(VictimPublished(victim), hunter, "m", [], 5)
  }

  lemma ParquetNotReserved(site: Site, k: string)
    requires EndsWith(Root(site) + k, ".parquet")
    ensures ManifestVersion(k).None? && k != CURRENT_KEY
  {
    var key := Root(site) + k;
    assert key[|key| - 1] == 't';
    if k != "" { assert k[|k| - 1] == 't'; }
  }

  lemma NotReservedByVictim(hunter: Site, victim: Site, key: string, k: string)
    requires Hunts(hunter, victim, key) && Root(hunter) + k in VictimPublished(victim).objects
    ensures ManifestVersion(k).None? && k != CURRENT_KEY
  {
    PublishedKeys(State(map[], map[]), victim, "m", [], Root(hunter) + k);
    if EndsWith(Root(hunter) + k, ".parquet") { ParquetNotReserved(hunter, k); }
  }

  lemma HunterKey(hunter: Site, victim: Site, key: string, k: string)
    requires Hunts(hunter, victim, key) && Root(hunter) + k in BothPublished(hunter, victim).objects
    ensures ManifestVersion(k).Some? ==> k == ManifestKey(1)
  {
    assert (Root(hunter) + k)[|Root(hunter)|..] == k;
    PublishedKeys(VictimPublished(victim), hunter, "m", [], Root(hunter) + k);
    if Root(hunter) + k in VictimPublished(victim).objects {
      NotReservedByVictim(hunter, victim, key, k);
    } else if EndsWith(Root(hunter) + k, ".parquet") {
      ParquetNotReserved(hunter, k);
    }
  }

  lemma PublishedManifest(s: State, site: Site, mapping: string, data: Bytes)
    ensures var store := Under(Then(s, site, mapping, data, 5).objects, Root(site));
            ManifestKey(1) in store && store[ManifestKey(1)] == T.ManifestDoc(FirstManifest(site, mapping, data))
  {
    TableSafety.ManifestKeyKind(1);
    RootedDiffer(Root(site), ManifestKey(1), CURRENT_KEY);
  }

  /** After both have published, the hunter sees one manifest of its own. */
  lemma HunterSeesOne(hunter: Site, victim: Site, key: string)
    requires Hunts(hunter, victim, key)
    ensures OneVersion(Under(BothPublished(hunter, victim).objects, Root(hunter)), FirstManifest(hunter, "m", []))
  {
    var store := Under(BothPublished(hunter, victim).objects, Root(hunter));
    ManifestVersionOf(1);
    PublishedManifest(VictimPublished(victim), hunter, "m", []);
    forall k | k in store && ManifestVersion(k).Some? ensures k == ManifestKey(1) { HunterKey(hunter, victim, key, k); }
  }

  lemma HunterUnpublished(hunter: Site, victim: Site, key: string)
    requires Hunts(hunter, victim, key)
    ensures Root(hunter) + CURRENT_KEY !in VictimPublished(victim).objects
    ensures RunOf(VictimPublished(victim), hunter) == Idle
  {
    if Root(hunter) + CURRENT_KEY in VictimPublished(victim).objects { NotReservedByVictim(hunter, victim, key, CURRENT_KEY); }
  }

  lemma KeyUnnamed(hunter: Site, victim: Site, key: string)
    requires Hunts(hunter, victim, key)
    ensures !HasKey(FirstManifest(hunter, "m", []).files, key)
  {
    TargetEnds(hunter, "m");
    var own := Entry(hunter, "m", []).key;
    assert own[|own| - 1] == 't';
  }

  lemma NobodyNames(retained: seq<TableManifest>, m: TableManifest, key: string)
    requires (forall r | r in retained :: r == m) && !HasKey(m.files, key)
    ensures !Referenced(retained, key)
  {
  }

  lemma PlansKey(objects: Objects, hunter: Site, victim: Site, key: string, listing: seq<string>)
    requires Hunts(hunter, victim, key) && Root(hunter) + key in objects
    requires OneVersion(Under(objects, Root(hunter)), FirstManifest(hunter, "m", []))
    requires T.Lists(listing, Under(objects, Root(hunter)))
    ensures var targets := T.VacuumTargets(Under(objects, Root(hunter)), listing, 1);
            targets.Some? && key in targets.value
  {
    var store, m := Under(objects, Root(hunter)), FirstManifest(hunter, "m", []);
    RetainsOne(store, m, listing);
    KeyUnnamed(hunter, victim, key);
    NobodyNames(T.ReadAll(store, T.RetainedVersions(listing, 1)).value, m, key);
    StrangerIsTarget(objects, hunter, key, listing, 1);
  }

  /** From here on only `site` makes requests. */
  ghost predicate Only(site: Site, events: seq<Event>, more: seq<Event>) {
    events <= more && forall i | |events| <= i < |more| :: more[i].site == site
  }

  /** What is left is what it was. */
  ghost predicate Leaves(before: Objects, after: Objects) {
    forall key | key in after :: key in before && after[key] == before[key]
  }

  /** Nothing outside the prefix is gone. */
  ghost predicate Spares(before: Objects, after: Objects, root: string) {
    forall key | key in before && !StartsWith(key, root) :: key in after
  }

  lemma DeletesFirst(sites: set<Site>, path: seq<State>, events: seq<Event>, site: Site)
      returns (longer: seq<State>, more: seq<Event>)
    requires Behavior(sites, path, events) && site in sites
    requires RunOf(path[|events|], site).Vacuuming? && RunOf(path[|events|], site).targets != []
    ensures Behavior(sites, longer, more) && path <= longer && Only(site, events, more)
    ensures Leaves(path[|events|].objects, longer[|more|].objects)
    ensures Spares(path[|events|].objects, longer[|more|].objects, Root(site))
    ensures var targets := RunOf(path[|events|], site).targets;
            && RunOf(longer[|more|], site) == Vacuuming(targets[1..])
            && Root(site) + targets[0] !in longer[|more|].objects
  {
    var s, e := path[|events|], On(site, T.Delete(true));
    assert Step(sites, s, e, Next(sites, s, e));
    RunGrows(sites, path, events, e, Next(sites, s, e));
    longer, more := path + [Next(sites, s, e)], events + [e];
  }

  lemma {:induction false} DeletesUntil(sites: set<Site>, path: seq<State>, events: seq<Event>, site: Site, key: string)
      returns (longer: seq<State>, more: seq<Event>)
    requires Behavior(sites, path, events) && site in sites
    requires RunOf(path[|events|], site).Vacuuming? && key in RunOf(path[|events|], site).targets
    ensures Behavior(sites, longer, more) && path <= longer && Only(site, events, more)
    ensures Root(site) + key !in longer[|more|].objects
    ensures Leaves(path[|events|].objects, longer[|more|].objects)
    ensures Spares(path[|events|].objects, longer[|more|].objects, Root(site))
    decreases |RunOf(path[|events|], site).targets|
  {
    var targets := RunOf(path[|events|], site).targets;
    longer, more := DeletesFirst(sites, path, events, site);
    if targets[0] != key {
      longer, more := DeletesUntil(sites, longer, more, site, key);
    }
  }

  lemma PlansVacuum(sites: set<Site>, path: seq<State>, events: seq<Event>, site: Site, listing: seq<string>,
                    targets: seq<string>) returns (longer: seq<State>, more: seq<Event>)
    requires Behavior(sites, path, events) && site in sites && RunOf(path[|events|], site) == Flipped(1)
    requires var store := Under(path[|events|].objects, Root(site));
             T.Lists(listing, store) && T.VacuumTargets(store, listing, 1) == Some(targets)
    ensures Behavior(sites, longer, more) && path <= longer && Only(site, events, more)
    ensures longer[|more|].objects == path[|events|].objects && RunOf(longer[|more|], site) == Vacuuming(targets)
  {
    var s, e := path[|events|], On(site, T.StartVacuum(listing));
    assert Step(sites, s, e, Next(sites, s, e));
    RunGrows(sites, path, events, e, Next(sites, s, e));
    longer, more := path + [Next(sites, s, e)], events + [e];
  }

  lemma Plans(sites: set<Site>, path: seq<State>, events: seq<Event>, hunter: Site, victim: Site, key: string)
      returns (longer: seq<State>, more: seq<Event>)
    requires Behavior(sites, path, events) && hunter in sites && Hunts(hunter, victim, key)
    requires var s := path[|events|];
             && Root(hunter) + key in s.objects && RunOf(s, hunter) == Flipped(1)
             && OneVersion(Under(s.objects, Root(hunter)), FirstManifest(hunter, "m", []))
    ensures Behavior(sites, longer, more) && path <= longer && Only(hunter, events, more)
    ensures longer[|more|].objects == path[|events|].objects
    ensures RunOf(longer[|more|], hunter).Vacuuming? && key in RunOf(longer[|more|], hunter).targets
  {
    var objects := path[|events|].objects;
    var listing := ListOf(Under(objects, Root(hunter)).Keys);
    PlansKey(objects, hunter, victim, key, listing);
    var targets := T.VacuumTargets(Under(objects, Root(hunter)), listing, 1).value;
    longer, more := PlansVacuum(sites, path, events, hunter, listing, targets);
  }

  lemma BothThere(hunter: Site, victim: Site, key: string)
    requires Hunts(hunter, victim, key)
    ensures Root(hunter) + key in BothPublished(hunter, victim).objects
    ensures RunOf(BothPublished(hunter, victim), hunter) == Flipped(1)
  {
  }

  /** Both tables publish, and the hunter plans what to delete. */
  lemma BothThenPlan(sites: set<Site>, hunter: Site, victim: Site, key: string) returns (path: seq<State>, events: seq<Event>)
    requires hunter in sites && victim in sites && Hunts(hunter, victim, key)
    ensures Behavior(sites, path, events) && |events| > 5 && path[5] == VictimPublished(victim)
    ensures Only(hunter, events[..5], events) && path[|events|].objects == BothPublished(hunter, victim).objects
    ensures RunOf(path[|events|], hunter).Vacuuming? && key in RunOf(path[|events|], hunter).targets
  {
    path, events := FirstPublish(sites, victim, "m", [], 5);
    HunterUnpublished(hunter, victim, key);
    path, events := Publishes(sites, path, events, hunter, "m", [], 5);
    assert path[10] == BothPublished(hunter, victim);
    BothThere(hunter, victim, key);
    HunterSeesOne(hunter, victim, key);
    var published := path;
    path, events := Plans(sites, path, events, hunter, victim, key);
    assert path[5] == published[5];
  }

  /** The victim has published version 1; then only the hunter makes requests, and
      what the victim keeps at `key` is gone. */
  lemma HuntEnds(sites: set<Site>, hunter: Site, victim: Site, key: string) returns (path: seq<State>, events: seq<Event>)
    requires hunter in sites && victim in sites && Hunts(hunter, victim, key)
    ensures Behavior(sites, path, events) && |events| > 5 && Only(hunter, events[..5], events)
    ensures CurrentOf(path[5], victim).Ok? && CurrentOf(path[5], victim).value.version == 1
    ensures Root(hunter) + key !in path[|events|].objects
    ensures Leaves(BothPublished(hunter, victim).objects, path[|events|].objects)
    ensures Spares(BothPublished(hunter, victim).objects, path[|events|].objects, Root(hunter))
  {
    path, events := BothThenPlan(sites, hunter, victim, key);
    PublishedReads(State(map[], map[]), victim, "m", []);
    var planned, planning := path, events;
    path, events := DeletesUntil(sites, path, events, hunter, key);
    assert path[5] == planned[5] && events[..5] == planning[..5];
  }

  // The two ways tables nest

  /** The inner table lies within the outer one, and not among its manifests. */
  ghost predicate Reaches(outer: Site, inner: Site) {
    && outer != inner && StartsWith(Root(inner), Root(outer)) && Between(outer, inner) != ""
    && !StartsWith(Between(outer, inner), MANIFEST_PREFIX)
  }

  /** A prefix of a table's own manifest or pointer that ends in a slash is that of
      its manifests. */
  lemma SlashWithin(between: string, k: string)
    requires between != "" && between[|between| - 1] == '/' && (ManifestVersion(k).Some? || k == CURRENT_KEY)
    ensures StartsWith(k, between) ==> StartsWith(between, MANIFEST_PREFIX)
  {
    var last := |between| - 1;
    assert '/' !in CURRENT_KEY && forall i | 0 <= i < |MANIFEST_PREFIX| - 1 :: MANIFEST_PREFIX[i] != '/';
    if StartsWith(k, between) {
      assert k[last] == '/';
      assert k[..|MANIFEST_PREFIX|] == MANIFEST_PREFIX;
      assert between[..|MANIFEST_PREFIX|] == k[..|MANIFEST_PREFIX|];
    }
  }

  lemma StartsBelow(outer: Site, inner: Site, k: string)
    requires StartsWith(Root(inner), Root(outer))
    ensures StartsWith(Root(outer) + k, Root(inner)) ==> StartsWith(k, Between(outer, inner))
  {
    var key := Root(outer) + k;
    assert key[|Root(outer)|..] == k;
    if StartsWith(key, Root(inner)) { assert key[|Root(outer)|..|Root(inner)|] == Between(outer, inner); }
  }

  lemma ReservedNotInner(outer: Site, inner: Site, k: string)
    requires Reaches(outer, inner) && (ManifestVersion(k).Some? || k == CURRENT_KEY)
    ensures !StartsWith(Root(outer) + k, Root(inner))
  {
    BetweenEnds(outer, inner);
    StartsBelow(outer, inner, k);
    SlashWithin(Between(outer, inner), k);
  }

  /** The outer table's vacuum takes the inner one's pointer. */
  lemma OuterHunts(outer: Site, inner: Site)
    requires Reaches(outer, inner)
    ensures Hunts(outer, inner, Between(outer, inner) + CURRENT_KEY)
  {
    var between := Between(outer, inner);
    var key := between + CURRENT_KEY;
    BetweenEnds(outer, inner);
    assert Root(outer) + key == Root(inner) + CURRENT_KEY;
    assert forall i | 0 <= i < |MANIFEST_PREFIX| - 1 :: MANIFEST_PREFIX[i] != '/';
    if StartsWith(key, MANIFEST_PREFIX) { OneInOther(between, MANIFEST_PREFIX, key); }
    forall k | KeptBy(inner, Root(outer) + k) ensures ManifestVersion(k).None? && k != CURRENT_KEY {
      if ManifestVersion(k).Some? || k == CURRENT_KEY { ReservedNotInner(outer, inner, k); }
    }
  }

  /** Unless the inner table sits among the outer one's manifests, a vacuum of the
      outer table is to delete the inner one's pointer: no version of the outer
      table names it. */
  lemma PointerIsTarget(objects: Objects, outer: Site, inner: Site, listing: seq<string>, current: nat)
    requires StartsWith(Root(inner), Root(outer)) && Root(inner) + CURRENT_KEY in objects
    requires var store := Under(objects, Root(outer));
             && T.Lists(listing, store) && T.VacuumTargets(store, listing, current).Some?
             && !Referenced(T.ReadAll(store, T.RetainedVersions(listing, current)).value, Between(outer, inner) + CURRENT_KEY)
    requires !StartsWith(Between(outer, inner) + CURRENT_KEY, MANIFEST_PREFIX) && Between(outer, inner) != ""
    ensures Between(outer, inner) + CURRENT_KEY in T.VacuumTargets(Under(objects, Root(outer)), listing, current).value
  {
    var key := Between(outer, inner) + CURRENT_KEY;
    assert Root(outer) + key == Root(inner) + CURRENT_KEY;
    assert |key| > |CURRENT_KEY|;
    StrangerIsTarget(objects, outer, key, listing, current);
  }

  /** An inner table's published version is lost to an outer table's vacuum: after
      event 5 only the outer table makes requests. */
  lemma VacuumLosesTable(sites: set<Site>, outer: Site, inner: Site) returns (path: seq<State>, events: seq<Event>)
    requires outer in sites && inner in sites && Reaches(outer, inner)
    ensures Behavior(sites, path, events) && |events| > 5 && Only(outer, events[..5], events)
    ensures CurrentOf(path[5], inner).Ok? && CurrentOf(path[5], inner).value.version == 1
    ensures CurrentOf(path[|events|], inner) == Ok(EMPTY_MANIFEST)
  {
    var key := Between(outer, inner) + CURRENT_KEY;
    OuterHunts(outer, inner);
    path, events := HuntEnds(sites, outer, inner, key);
    assert Root(outer) + key == Root(inner) + CURRENT_KEY;
    Unpublished(path[|events|].objects, Root(inner));
  }

  /** The inner table's prefix is where the outer one's manifests are. */
  ghost predicate AmongManifests(outer: Site, inner: Site) {
    outer != inner && StartsWith(Root(inner), Root(outer)) && Between(outer, inner) == MANIFEST_PREFIX
  }

  /** Then the inner table's vacuum takes the outer one's manifests. */
  lemma InnerHunts(outer: Site, inner: Site)
    requires AmongManifests(outer, inner)
    ensures Hunts(inner, outer, "1.json")
  {
    BetweenEnds(outer, inner);
    assert Dec(1) == "1";
    assert ManifestKey(1) == MANIFEST_PREFIX + "1.json";
    assert Root(inner) + "1.json" == Root(outer) + ManifestKey(1);
    forall k | KeptBy(outer, Root(inner) + k) ensures ManifestVersion(k).None? && k != CURRENT_KEY {
      assert Root(inner) + k == Root(outer) + (MANIFEST_PREFIX + k);
      assert (Root(outer) + (MANIFEST_PREFIX + k))[|Root(outer)|..] == MANIFEST_PREFIX + k;
      KeptAmongManifests(outer, k);
    }
  }

  lemma KeptAmongManifests(outer: Site, k: string)
    requires KeptBy(outer, Root(outer) + (MANIFEST_PREFIX + k))
    ensures k == "1.json" && ManifestVersion(k).None? && k != CURRENT_KEY
  {
    var key := Root(outer) + (MANIFEST_PREFIX + k);
    assert key[|Root(outer)|..] == MANIFEST_PREFIX + k;
    assert Dec(1) == "1";
    assert ManifestKey(1) == MANIFEST_PREFIX + "1.json";
    assert CURRENT_KEY[1] == 'c' && (MANIFEST_PREFIX + k)[1] == 'm';
    RootedDiffer(Root(outer), CURRENT_KEY, MANIFEST_PREFIX + k);
    assert MANIFEST_PREFIX + k == MANIFEST_PREFIX + "1.json";
    assert k == (MANIFEST_PREFIX + k)[|MANIFEST_PREFIX|..];
  }

  lemma OuterPointerStays(outer: Site, inner: Site)
    requires AmongManifests(outer, inner)
    ensures !StartsWith(Root(outer) + CURRENT_KEY, Root(inner))
    ensures var objects := BothPublished(inner, outer).objects;
            Root(outer) + CURRENT_KEY in objects && objects[Root(outer) + CURRENT_KEY] == T.PointerDoc(1)
  {
    BetweenEnds(outer, inner);
    var key := Root(outer) + CURRENT_KEY;
    assert key[|Root(outer)| + 1] == 'c' && Root(inner)[|Root(outer)| + 1] == 'm';
    TargetEnds(inner, "m");
    assert key[|key| - 1] == 'n';
  }

  lemma PointsNowhere(objects: Objects, root: string)
    requires root + CURRENT_KEY in objects && objects[root + CURRENT_KEY] == T.PointerDoc(1)
    requires root + ManifestKey(1) !in objects
    ensures T.ReadCurrent(Under(objects, root)).Err?
  {
  }

  /** An outer table's current version can no longer be read: an inner table's vacuum
      has taken its manifest. */
  lemma VacuumTakesManifest(sites: set<Site>, outer: Site, inner: Site) returns (path: seq<State>, events: seq<Event>)
    requires outer in sites && inner in sites && AmongManifests(outer, inner)
    ensures Behavior(sites, path, events) && |events| > 5 && Only(inner, events[..5], events)
    ensures CurrentOf(path[5], outer).Ok? && CurrentOf(path[5], outer).value.version == 1
    ensures CurrentOf(path[|events|], outer).Err?
  {
    InnerHunts(outer, inner);
    path, events := HuntEnds(sites, inner, outer, "1.json");
    OuterPointerStays(outer, inner);
    ManifestAmong(outer, inner);
    PointsNowhere(path[|events|].objects, Root(outer));
  }

  lemma ManifestAmong(outer: Site, inner: Site)
    requires AmongManifests(outer, inner)
    ensures Root(inner) + "1.json" == Root(outer) + ManifestKey(1)
  {
    BetweenEnds(outer, inner);
    assert Dec(1) == "1";
    assert ManifestKey(1) == MANIFEST_PREFIX + "1.json";
  }

  // Exactly when nothing can be lost

  lemma SlashLoses(sites: set<Site>, site: Site)
    requires site in sites && '/' in site.table
    ensures !NothingLost(sites)
  {
    var path, events := SlashPublishesNothing(sites, site, "m", []);
    NotWhole(path[|events|], site);
    assert !Keeps(path[|events|], path[|events|], site);
    assert !KeepsAlong(path, site);
  }

  lemma NotWhole(s: State, site: Site)
    requires CurrentOf(s, site).Ok? && CurrentOf(s, site).value.version == 1 && |CurrentOf(s, site).value.files| == 1
    requires Root(site) + CurrentOf(s, site).value.files[0].key !in s.objects
    requires T.ReadVersion(Under(s.objects, Root(site)), 1) == CurrentOf(s, site)
    ensures !Intact(s, site)
  {
    var store, f := Under(s.objects, Root(site)), CurrentOf(s, site).value.files[0];
    assert f in T.ReadVersion(store, 1).value.files && !T.HoldsData(store, f.key);
    assert !Whole(store, 1) && TableSafety.InWindow(1, 1);
  }

  lemma NestingLoses(sites: set<Site>, outer: Site, inner: Site)
    requires outer in sites && inner in sites && (Reaches(outer, inner) || AmongManifests(outer, inner))
    ensures !NothingLost(sites)
  {
    if Reaches(outer, inner) {
      var path, events := VacuumLosesTable(sites, outer, inner);
      assert !Keeps(path[5], path[|events|], inner);
      assert !KeepsAlong(path, inner);
    } else {
      var path, events := VacuumTakesManifest(sites, outer, inner);
      assert !Keeps(path[5], path[|events|], outer);
      assert !KeepsAlong(path, outer);
    }
  }

  /** Under job prefixes that end in a slash, no two slash-free tables share a prefix. */
  lemma RootsDiffer(a: Site, b: Site)
    requires EndsWith(a.prefix, "/") && EndsWith(b.prefix, "/") && '/' !in a.table && '/' !in b.table
    requires Root(a) == Root(b)
    ensures a == b
  {
    PrefixNoLonger(a, b);
    PrefixNoLonger(b, a);
    assert a.prefix == Root(a)[..|a.prefix|] && b.prefix == Root(b)[..|b.prefix|];
    assert a.table == Root(a)[|a.prefix|..|Root(a)| - 1] && b.table == Root(b)[|b.prefix|..|Root(b)| - 1];
  }

  lemma PrefixNoLonger(a: Site, b: Site)
    requires EndsWith(b.prefix, "/") && '/' !in a.table && Root(a) == Root(b)
    ensures |b.prefix| <= |a.prefix|
  {
    var last := |b.prefix| - 1;
    assert Root(b)[last] == b.prefix[last] == '/';
    assert forall i | |a.prefix| <= i < |Root(a)| - 1 :: Root(a)[i] == a.table[i - |a.prefix|];
  }

  /** No run of the bucket loses, changes or fails to deliver a version in the window
      of any table iff no id has a slash and every prefix within another is sheltered. */
  lemma NothingLostIff(sites: set<Site>)
    requires forall site | site in sites :: EndsWith(site.prefix, "/")
    ensures NothingLost(sites) <==> Harmless(sites)
  {
    if Harmless(sites) {
      forall path: seq<State>, events: seq<Event>, site | Behavior(sites, path, events) && site in sites
        ensures KeepsAlong(path, site)
      {
        forall i, k | 0 <= i <= k < |path| ensures Keeps(path[i], path[k], site) {
          HarmlessKeeps(sites, path, events, site, i, k);
        }
      }
    } else if a :| a in sites && '/' in a.table {
      SlashLoses(sites, a);
    } else {
      var a, b :| a in sites && b in sites && a != b && StartsWith(Root(b), Root(a)) && !Sheltered(Between(a, b));
      if Between(a, b) == "" {
        assert Root(b) == Root(a) + Between(a, b);
        RootsDiffer(a, b);
      } else {
        NestingLoses(sites, a, b);
      }
    }
  }

  /** What tidiness asks for is more than it takes to lose nothing. */
  lemma TidyIsHarmless(sites: set<Site>)
    requires Tidy(sites)
    ensures Harmless(sites)
  {
  }
}
