/**
 Tables inside tables that do no harm. A key two levels below a table's manifests
 is none of its own, its vacuum spares it, and nothing it reads is there: a table
 whose prefix lies in that place and the one around it never meet. Seen without
 such keys, each goes through a run of the publish protocol.
 */
module WarehouseShelter {
  import opened Text
  import opened Paths
  import opened Manifest
  import opened TableShadow
  import opened Warehouse

  /** The part of an inner table's prefix below the outer one. */
  function Between(outer: Site, inner: Site): string
    requires StartsWith(Root(inner), Root(outer))
  {
    Root(inner)[|Root(outer)|..]
  }

  /** Below the manifests, and not among them. */
  predicate Sheltered(between: string) {
    StartsWith(between, MANIFEST_PREFIX) && between != MANIFEST_PREFIX
  }

  /** Ids without a slash, and a full prefix that begins another's only if that one
      is sheltered from it. */
  ghost predicate Harmless(sites: set<Site>) {
    && (forall a | a in sites :: '/' !in a.table)
    && forall a, b | a in sites && b in sites && a != b && StartsWith(Root(b), Root(a)) :: Sheltered(Between(a, b))
  }

  /** A key no code makes for its own table. */
  predicate Foreign(k: string) {
    StartsWith(k, MANIFEST_PREFIX) && '/' in k[|MANIFEST_PREFIX|..]
  }

  predicate ForeignTo(root: string, key: string) {
    StartsWith(key, root) && Foreign(key[|root|..])
  }

  /** The bucket without what is foreign to the table at `root`. */
  function Without(objects: Objects, root: string): (own: Objects)
    ensures forall k :: root + k in own <==> root + k in objects && !Foreign(k)
  {
    var own := map key | key in objects && !ForeignTo(root, key) :: objects[key];
    assert forall k :: (root + k)[|root|..] == k;
    own
  }

  function Own(objects: Objects, root: string): T.Store {
    Under(Without(objects, root), root)
  }

  lemma OwnIs(objects: Objects, root: string)
    ensures Own(objects, root).Keys <= Under(objects, root).Keys
    ensures forall k | k in Own(objects, root) :: Own(objects, root)[k] == Under(objects, root)[k]
    ensures forall k | k in Under(objects, root) && !Foreign(k) :: k in Own(objects, root)
  {
  }

  lemma ForeignIsNoManifest(k: string)
    requires Foreign(k)
    ensures ManifestVersion(k).None? && k != CURRENT_KEY
  {
    var name := k[|MANIFEST_PREFIX|..];
    assert k[1] == 'm' && CURRENT_KEY[1] == 'c';
    if EndsWith(name, ".json") {
      var number := name[..|name| - 5];
      var i :| 0 <= i < |name| && name[i] == '/';
      assert forall j | |number| <= j < |name| :: name[j] == ".json"[j - |number|];
      assert number[i] == '/';
      SlashNoNumber(number, i);
    }
  }

  lemma SlashNoNumber(s: string, i: nat)
    requires i < |s| && s[i] == '/'
    ensures ParseUnsigned(s).None?
  {
    var digits := if StartsWith(s, "+") then s[1..] else s;
    if StartsWith(s, "+") { assert digits[i - 1] == '/'; } else { assert digits[i] == '/'; }
  }

  lemma OwnKeys(version: nat)
    ensures !Foreign(CURRENT_KEY) && !Foreign(ManifestKey(version))
  {
    assert CURRENT_KEY[1] == 'c' && MANIFEST_PREFIX[1] == 'm';
    DecIsDigits(version);
    DigitsHaveNo(Dec(version), '/');
    assert ManifestKey(version)[|MANIFEST_PREFIX|..] == Dec(version) + ".json";
  }

  lemma OwnFile(version: nat, columns: seq<string>, cells: seq<Cell>, mapping: string)
    requires Renderable(columns, cells)
    ensures !Foreign(FileKey(version, columns, cells, mapping))
  {
    assert FileKey(version, columns, cells, mapping)[0] == 'v' && MANIFEST_PREFIX[0] == '_';
  }

  // What a table reads is its own

  lemma SameReads(objects: Objects, root: string, version: nat)
    ensures T.ReadVersion(Own(objects, root), version) == T.ReadVersion(Under(objects, root), version)
  {
    OwnIs(objects, root);
    OwnKeys(version);
  }

  lemma SameCurrent(objects: Objects, root: string)
    ensures T.ReadCurrent(Own(objects, root)) == T.ReadCurrent(Under(objects, root))
  {
    OwnIs(objects, root);
    OwnKeys(0);
    forall version ensures T.ReadVersion(Own(objects, root), version) == T.ReadVersion(Under(objects, root), version) {
      SameReads(objects, root, version);
    }
  }

  lemma {:induction false} SameReadAll(objects: Objects, root: string, versions: seq<nat>)
    ensures T.ReadAll(Own(objects, root), versions) == T.ReadAll(Under(objects, root), versions)
  {
    if versions != [] {
      SameReads(objects, root, versions[0]);
      SameReadAll(objects, root, versions[1..]);
    }
  }

  /** A listing without the keys of others. */
  function OwnOf(listing: seq<string>): (own: seq<string>)
    ensures forall k :: k in own <==> k in listing && !Foreign(k)
  {
    if listing == [] then []
    else (if Foreign(listing[0]) then [] else [listing[0]]) + OwnOf(listing[1..])
  }

  lemma {:induction false} OwnOfDistinct(listing: seq<string>)
    requires NoRepeats(listing)
    ensures NoRepeats(OwnOf(listing))
  {
    if listing != [] {
      OwnOfDistinct(listing[1..]);
      assert listing[0] !in listing[1..];
      assert listing[0] !in OwnOf(listing[1..]);
    }
  }

  lemma {:induction false} SameVersions(listing: seq<string>)
    ensures T.ManifestVersions(OwnOf(listing)) == T.ManifestVersions(listing)
  {
    if listing != [] {
      SameVersions(listing[1..]);
      if Foreign(listing[0]) {
        ForeignIsNoManifest(listing[0]);
        assert OwnOf(listing) == OwnOf(listing[1..]);
      } else {
        assert OwnOf(listing)[1..] == OwnOf(listing[1..]);
      }
    }
  }

  lemma {:induction false} SameOrphans(retained: seq<TableManifest>, listing: seq<string>)
    ensures UnreferencedKeys(retained, OwnOf(listing)) == UnreferencedKeys(retained, listing)
  {
    if listing != [] {
      SameOrphans(retained, listing[1..]);
      if Foreign(listing[0]) {
        assert OwnOf(listing) == OwnOf(listing[1..]);
      } else {
        assert OwnOf(listing)[1..] == OwnOf(listing[1..]);
      }
    }
  }

  lemma SameTargets(objects: Objects, root: string, listing: seq<string>, current: nat)
    ensures T.VacuumTargets(Own(objects, root), OwnOf(listing), current)
         == T.VacuumTargets(Under(objects, root), listing, current)
  {
    SameVersions(listing);
    var versions := T.RetainedVersions(listing, current);
    SameReadAll(objects, root, versions);
    match T.ReadAll(Under(objects, root), versions)
    case None =>
    case Some(retained) => SameOrphans(retained, listing);
  }

  lemma ListsOwn(objects: Objects, root: string, listing: seq<string>)
    requires T.Lists(listing, Under(objects, root))
    ensures T.Lists(OwnOf(listing), Own(objects, root))
  {
    OwnOfDistinct(listing);
    OwnIs(objects, root);
  }

  // A table's own request, without what is foreign to it

  function OwnRequest(e: T.Event): T.Event {
    if e.StartVacuum? then T.StartVacuum(OwnOf(e.listing)) else e
  }

  lemma CanWithout(objects: Objects, site: Site, run: Run, e: T.Event)
    requires Can(objects, site, run, e)
    ensures Can(Without(objects, Root(site)), site, run, OwnRequest(e))
    ensures RunAfter(Without(objects, Root(site)), site, run, OwnRequest(e)) == RunAfter(objects, site, run, e)
  {
    if e.Begin? {
      SameCurrent(objects, Root(site));
    } else if e.StartVacuum? {
      VacuumWithout(objects, site, run, e.listing);
    }
  }

  lemma VacuumWithout(objects: Objects, site: Site, run: Run, listing: seq<string>)
    requires Can(objects, site, run, T.StartVacuum(listing))
    ensures Can(Without(objects, Root(site)), site, run, T.StartVacuum(OwnOf(listing)))
    ensures RunAfter(Without(objects, Root(site)), site, run, T.StartVacuum(OwnOf(listing)))
         == RunAfter(objects, site, run, T.StartVacuum(listing))
  {
    SameTargets(objects, Root(site), listing, run.current);
    ListsOwn(objects, Root(site), listing);
  }

  lemma PutWithout(objects: Objects, root: string, k: string, v: T.Object)
    requires !Foreign(k)
    ensures Without(objects[root + k := v], root) == Without(objects, root)[root + k := v]
  {
    assert (root + k)[|root|..] == k;
  }

  lemma RemoveWithout(objects: Objects, root: string, key: string)
    ensures Without(objects - {key}, root) == Without(objects, root) - {key}
  {
  }

  lemma AfterWithout(objects: Objects, site: Site, run: Run, e: T.Event)
    requires '/' !in site.table && Can(objects, site, run, e) && Can(Without(objects, Root(site)), site, run, OwnRequest(e))
    ensures ObjectsAfter(Without(objects, Root(site)), site, run, OwnRequest(e))
         == Without(ObjectsAfter(objects, site, run, e), Root(site))
  {
    var root := Root(site);
    match e
    case Upload(cells, mapping, data) =>
      TargetAt(site, run.version, run.columns, cells, mapping);
      OwnFile(run.version, run.columns, cells, mapping);
      PutWithout(objects, root, FileKey(run.version, run.columns, cells, mapping), T.Parquet(data));
    case PutManifest(createdAt) =>
      OwnKeys(run.version);
      PutWithout(objects, root, ManifestKey(run.version), T.ManifestDoc(TableManifest(run.version, createdAt, run.files)));
    case FlipPointer =>
      OwnKeys(0);
      PutWithout(objects, root, CURRENT_KEY, T.PointerDoc(run.manifest.version));
    case Delete(ok) => RemoveWithout(objects, root, root + run.targets[0]);
    case _ =>
  }

  // Requests of other tables

  /** A vacuum plans to delete keys of its own only. */
  ghost predicate OwnTargets(run: Run) {
    run.Vacuuming? ==> forall k | k in run.targets :: !Foreign(k)
  }

  lemma TargetsAreOwn(store: T.Store, listing: seq<string>, current: nat)
    requires T.VacuumTargets(store, listing, current).Some?
    ensures OwnTargets(Vacuuming(T.VacuumTargets(store, listing, current).value))
  {
    forall k | k in T.VacuumTargets(store, listing, current).value ensures !Foreign(k) {
      if k in T.ManifestKeys(T.Doomed(listing, current)) {
        var i :| 0 <= i < |T.Doomed(listing, current)| && k == ManifestKey(T.Doomed(listing, current)[i]);
        OwnKeys(T.Doomed(listing, current)[i]);
      }
    }
  }

  lemma TargetsStayOwn(objects: Objects, site: Site, run: Run, e: T.Event)
    requires Can(objects, site, run, e) && OwnTargets(run)
    ensures OwnTargets(RunAfter(objects, site, run, e))
  {
    if e.StartVacuum? { TargetsAreOwn(Under(objects, Root(site)), e.listing, run.current); }
  }

  ghost predicate ChangesOnly(before: Objects, after: Objects, key: string) {
    forall j | j != key :: (j in after <==> j in before) && (j in before ==> after[j] == before[j])
  }

  /** The one key a request writes or deletes, relative to its table: one of its own. */
  lemma RequestTouches(objects: Objects, site: Site, run: Run, e: T.Event) returns (k: string)
    requires '/' !in site.table && Can(objects, site, run, e) && OwnTargets(run)
    ensures !Foreign(k) && ChangesOnly(objects, ObjectsAfter(objects, site, run, e), Root(site) + k)
  {
    OwnKeys(0);
    k := CURRENT_KEY;
    match e
    case Upload(cells, mapping, data) =>
      TargetAt(site, run.version, run.columns, cells, mapping);
      OwnFile(run.version, run.columns, cells, mapping);
      k := FileKey(run.version, run.columns, cells, mapping);
    case PutManifest(createdAt) =>
      OwnKeys(run.version);
      k := ManifestKey(run.version);
    case Delete(ok) => k := run.targets[0];
    case _ =>
  }

  /** Neither prefix begins the other, or the inner one is sheltered. */
  ghost predicate Apart(a: Site, b: Site) {
    && (StartsWith(Root(b), Root(a)) ==> Sheltered(Between(a, b)))
    && (StartsWith(Root(a), Root(b)) ==> Sheltered(Between(b, a)))
  }

  lemma BetweenEnds(outer: Site, inner: Site)
    requires StartsWith(Root(inner), Root(outer)) && Between(outer, inner) != ""
    ensures Root(inner) == Root(outer) + Between(outer, inner)
    ensures Between(outer, inner)[|Between(outer, inner)| - 1] == '/'
  {
    assert Root(inner)[|Root(inner)| - 1] == '/';
  }

  /** A key under a sheltered prefix is foreign to the table around it. */
  lemma ShelteredIsForeign(outer: Site, inner: Site, k: string)
    requires StartsWith(Root(inner), Root(outer)) && Sheltered(Between(outer, inner))
    requires StartsWith(k, Between(outer, inner))
    ensures Foreign(k)
  {
    var between := Between(outer, inner);
    BetweenEnds(outer, inner);
    assert k[|between| - 1] == between[|between| - 1] == '/';
    assert k[..|MANIFEST_PREFIX|] == between[..|MANIFEST_PREFIX|];
    assert k[|MANIFEST_PREFIX|..][|between| - 1 - |MANIFEST_PREFIX|] == '/';
  }

  lemma KeyReachesInto(outer: Site, inner: Site, k: string)
    requires StartsWith(Root(outer) + k, Root(inner)) && !StartsWith(Root(outer), Root(inner))
    ensures StartsWith(Root(inner), Root(outer)) && StartsWith(k, Between(outer, inner))
  {
    var key := Root(outer) + k;
    OneInOther(Root(outer), Root(inner), key);
    assert key[|Root(outer)|..] == k;
    assert key[|Root(outer)|..|Root(inner)|] == Between(outer, inner);
  }

  /** What one table may touch is not another's own. */
  lemma NotOwnOf(actor: Site, other: Site, k: string)
    requires Apart(actor, other) && !Foreign(k)
    ensures StartsWith(Root(actor) + k, Root(other)) ==> ForeignTo(Root(other), Root(actor) + k)
  {
    var key := Root(actor) + k;
    if StartsWith(Root(actor), Root(other)) {
      var between := Between(other, actor);
      BetweenEnds(other, actor);
      assert key == Root(other) + (between + k);
      assert key[|Root(other)|..] == between + k;
      ShelteredIsForeign(other, actor, between + k);
    } else if StartsWith(key, Root(other)) {
      KeyReachesInto(actor, other, k);
      ShelteredIsForeign(actor, other, k);
    }
  }

  lemma OwnUntouched(before: Objects, after: Objects, root: string, key: string)
    requires ChangesOnly(before, after, key) && (StartsWith(key, root) ==> ForeignTo(root, key))
    ensures Own(after, root) == Own(before, root)
  {
    var a, b := Own(after, root), Own(before, root);
    forall k ensures (k in a <==> k in b) && (k in a ==> a[k] == b[k]) {
      assert (root + k)[|root|..] == k;
      if root + k == key { assert Foreign(k); }
    }
  }

  lemma OthersOwnUntouched(objects: Objects, actor: Site, run: Run, e: T.Event, other: Site)
    requires '/' !in actor.table && Can(objects, actor, run, e) && OwnTargets(run) && Apart(actor, other)
    ensures Own(ObjectsAfter(objects, actor, run, e), Root(other)) == Own(objects, Root(other))
  {
    var k := RequestTouches(objects, actor, run, e);
    NotOwnOf(actor, other, k);
    OwnUntouched(objects, ObjectsAfter(objects, actor, run, e), Root(other), Root(actor) + k);
  }

  // Runs of the bucket, as one table sees what is its own

  function OwnState(s: State, site: Site): State {
    State(Without(s.objects, Root(site)), s.runs)
  }

  function OwnPath(path: seq<State>, site: Site): (r: seq<State>)
    ensures |r| == |path| && forall i | 0 <= i < |r| :: r[i] == OwnState(path[i], site)
  {
    seq(|path|, i requires 0 <= i < |path| => OwnState(path[i], site))
  }

  function OwnEvent(e: Event): Event {
    On(e.site, OwnRequest(e.request))
  }

  function OwnEvents(events: seq<Event>): (r: seq<Event>)
    ensures |r| == |events| && forall i | 0 <= i < |r| :: r[i] == OwnEvent(events[i])
  {
    seq(|events|, i requires 0 <= i < |events| => OwnEvent(events[i]))
  }

  ghost predicate AllOwnTargets(s: State) {
    forall site :: OwnTargets(RunOf(s, site))
  }

  lemma StepKeepsTargets(sites: set<Site>, s: State, e: Event, t: State)
    requires Step(sites, s, e, t) && AllOwnTargets(s)
    ensures AllOwnTargets(t)
  {
    NextOf(sites, s, e);
    assert OwnTargets(RunOf(s, e.site));
    TargetsStayOwn(s.objects, e.site, RunOf(s, e.site), e.request);
    forall site ensures OwnTargets(RunOf(t, site)) {
      if site != e.site { assert OwnTargets(RunOf(s, site)); }
    }
  }

  lemma {:induction false} AlwaysOwnTargets(sites: set<Site>, path: seq<State>, events: seq<Event>, i: nat)
    requires Behavior(sites, path, events) && i < |path|
    ensures AllOwnTargets(path[i])
  {
    if i > 0 {
      AlwaysOwnTargets(sites, path, events, i - 1);
      TargetsKeptAt(sites, path, events, i - 1);
    }
  }

  lemma TargetsKeptAt(sites: set<Site>, path: seq<State>, events: seq<Event>, i: nat)
    requires Behavior(sites, path, events) && i < |events| && AllOwnTargets(path[i])
    ensures AllOwnTargets(path[i + 1])
  {
    assert StepAt(sites, path, events, i);
    StepKeepsTargets(sites, path[i], events[i], path[i + 1]);
  }

  lemma OwnRequestSteps(objects: Objects, site: Site, run: Run, e: T.Event, table: T.State) returns (t: T.State)
    requires '/' !in site.table && Mirrors(Without(objects, Root(site)), site, run, table) && TableSafety.Inv(table)
    requires Can(objects, site, run, e)
    ensures TableTheorems.Step(table, OwnRequest(e), t)
    ensures Mirrors(Without(ObjectsAfter(objects, site, run, e), Root(site)), site, RunAfter(objects, site, run, e), t)
  {
    CanWithout(objects, site, run, e);
    AfterWithout(objects, site, run, e);
    t := RequestSteps(Without(objects, Root(site)), site, run, OwnRequest(e), table);
  }

  lemma OthersOwnPause(objects: Objects, actor: Site, run: Run, e: T.Event, site: Site, siteRun: Run, table: T.State)
    requires '/' !in actor.table && Can(objects, actor, run, e) && OwnTargets(run) && Apart(actor, site)
    requires Mirrors(Without(objects, Root(site)), site, siteRun, table)
    ensures Mirrors(Without(ObjectsAfter(objects, actor, run, e), Root(site)), site, siteRun, table)
  {
    OthersOwnUntouched(objects, actor, run, e, site);
  }

  lemma HarmlessApart(sites: set<Site>, a: Site, b: Site)
    requires Harmless(sites) && a in sites && b in sites && a != b
    ensures Apart(a, b)
  {
  }

  lemma OwnStep(sites: set<Site>, s: State, e: Event, next: State, site: Site, table: T.State) returns (t: T.State)
    requires Harmless(sites) && site in sites && Step(sites, s, e, next) && AllOwnTargets(s)
    requires Mirrors(Without(s.objects, Root(site)), site, RunOf(s, site), table) && TableSafety.Inv(table)
    ensures TableStep(table, RequestOf(OwnEvent(e), site), t)
    ensures Mirrors(Without(next.objects, Root(site)), site, RunOf(next, site), t)
  {
    NextOf(sites, s, e);
    if e.site == site {
      t := OwnRequestSteps(s.objects, site, RunOf(s, site), e.request, table);
    } else {
      HarmlessApart(sites, e.site, site);
      assert OwnTargets(RunOf(s, e.site));
      OthersOwnPause(s.objects, e.site, RunOf(s, e.site), e.request, site, RunOf(s, site), table);
      t := table;
    }
  }

  lemma OwnShadowStep(sites: set<Site>, path: seq<State>, events: seq<Event>, site: Site, i: nat, shadow: seq<T.State>,
                      requests: seq<Option<T.Event>>) returns (t: T.State)
    requires Harmless(sites) && Behavior(sites, path, events) && site in sites && i < |events|
    requires MirrorsTo(OwnPath(path, site), OwnEvents(events), site, shadow, requests, i)
    ensures TableStep(shadow[i], RequestOf(OwnEvents(events)[i], site), t)
    ensures Mirrors(OwnPath(path, site)[i + 1].objects, site, RunOf(OwnPath(path, site)[i + 1], site), t)
  {
    assert MirrorsAt(OwnPath(path, site), site, shadow, i);
    ShadowInv(shadow, requests, i);
    AlwaysOwnTargets(sites, path, events, i);
    t := OwnStepAt(sites, path, events, site, i, shadow[i]);
  }

  lemma OwnStepAt(sites: set<Site>, path: seq<State>, events: seq<Event>, site: Site, i: nat, table: T.State)
      returns (t: T.State)
    requires Harmless(sites) && Behavior(sites, path, events) && site in sites && i < |events| && AllOwnTargets(path[i])
    requires Mirrors(Without(path[i].objects, Root(site)), site, RunOf(path[i], site), table) && TableSafety.Inv(table)
    ensures TableStep(table, RequestOf(OwnEvent(events[i]), site), t)
    ensures Mirrors(Without(path[i + 1].objects, Root(site)), site, RunOf(path[i + 1], site), t)
  {
    assert StepAt(sites, path, events, i);
    t := OwnStep(sites, path[i], events[i], path[i + 1], site, table);
  }

  lemma {:induction false} BuildOwn(sites: set<Site>, path: seq<State>, events: seq<Event>, site: Site, i: nat)
      returns (shadow: seq<T.State>, requests: seq<Option<T.Event>>)
    requires Harmless(sites) && Behavior(sites, path, events) && site in sites && i < |path|
    ensures MirrorsTo(OwnPath(path, site), OwnEvents(events), site, shadow, requests, i)
  {
    if i == 0 {
      shadow, requests := FirstOwn(sites, path, events, site);
    } else {
      shadow, requests := BuildOwn(sites, path, events, site, i - 1);
      var t := OwnShadowStep(sites, path, events, site, i - 1, shadow, requests);
      ShadowGrows(OwnPath(path, site), OwnEvents(events), site, i - 1, shadow, requests, t);
      shadow, requests := shadow + [t], requests + [RequestOf(OwnEvents(events)[i - 1], site)];
    }
  }

  lemma FirstOwn(sites: set<Site>, path: seq<State>, events: seq<Event>, site: Site)
      returns (shadow: seq<T.State>, requests: seq<Option<T.Event>>)
    requires Behavior(sites, path, events)
    ensures MirrorsTo(OwnPath(path, site), OwnEvents(events), site, shadow, requests, 0)
  {
    assert Without(map[], Root(site)) == map[];
    UnderNothing(Root(site));
    shadow, requests := [T.State(map[], [], T.Idle)], [];
    assert MirrorsAt(OwnPath(path, site), site, shadow, 0);
  }

  /** Refinement: what is a table's own goes through a run of the publish protocol. */
  lemma OwnShadow(sites: set<Site>, path: seq<State>, events: seq<Event>, site: Site) returns (shadow: seq<T.State>)
    requires Harmless(sites) && Behavior(sites, path, events) && site in sites
    ensures Follows(shadow, RequestsOf(OwnEvents(events), site))
    ensures forall k | 0 <= k < |path| :: shadow[k].store == Own(path[k].objects, Root(site))
  {
    var requests;
    shadow, requests := BuildOwn(sites, path, events, site, |events|);
    assert OwnEvents(events)[..|events|] == OwnEvents(events);
    forall k | 0 <= k < |path| ensures shadow[k].store == Own(path[k].objects, Root(site)) {
      assert MirrorsAt(OwnPath(path, site), site, shadow, k);
    }
  }
}
