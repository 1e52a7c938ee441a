/**
 What happens when a warehouse is not tidy, and that tidiness is exactly what it
 takes: an id with a slash, or a prefix that begins another, and some run leaves
 a table in a state its own requests cannot explain. A table with a slash also
 publishes files that are not there. WarehouseLoss has what vacuums do.
 */
module WarehouseNesting {
  import opened Text
  import opened Paths
  import opened Manifest
  import opened TableShadow
  import opened Warehouse

  /** The key recorded for a table with a slash is not where its upload went. */
  lemma SlashMisses(site: Site, version: nat, columns: seq<string>, cells: seq<Cell>, mapping: string)
    requires Renderable(columns, cells) && '/' in site.table
    ensures var target := Target(site, version, columns, cells, mapping);
            |site.prefix + target.0| < |Root(site) + target.1| && StartsWith(target.1, VersionPrefix(version))
  {
    var i := IndexOf(site.table, '/');
    HasSlash(site.table);
    var head, tail := site.table[..i], site.table[i + 1..];
    assert site.table == head + "/" + tail;
    SplitNestedKey(head, tail, columns, cells, mapping);
    var relative := VersionPrefix(version) + (tail + "/" + (HivePath(columns, cells) + (mapping + ".parquet")));
    assert Target(site, version, columns, cells, mapping) == (head + "/" + relative, relative);
  }

  /** Its upload has a key as long as one of its own would be. */
  lemma SlashKeyLength(site: Site, mapping: string)
    requires '/' in site.table
    ensures |site.prefix + Target(site, 1, [], [], mapping).0| == |Root(site) + FileKey(1, [], [], mapping)|
  {
    var i := IndexOf(site.table, '/');
    HasSlash(site.table);
    var head, tail := site.table[..i], site.table[i + 1..];
    assert site.table == head + "/" + tail;
    SplitNestedKey(head, tail, [], [], mapping);
  }

  // Publishing one file under version 1

  ghost function Entry(site: Site, mapping: string, data: Bytes): ManifestFile {
    ManifestFile(Target(site, 1, [], [], mapping).1, mapping, |data|)
  }

  ghost function FirstManifest(site: Site, mapping: string, data: Bytes): TableManifest {
    TableManifest(1, "", [Entry(site, mapping, data)])
  }

  /** The table's run after this many requests of publishing one file. */
  ghost function RunThen(site: Site, mapping: string, data: Bytes, n: nat): Run {
    var f := Entry(site, mapping, data);
    match n
    case 0 => Idle
    case 1 => Writing(1, [], [], {}, map[])
    case 2 => Writing(1, [], [], {}, map[f.key := f.bytes])
    case 3 => Writing(1, [], [f], {mapping}, map[f.key := f.bytes])
    case 4 => ManifestWritten(FirstManifest(site, mapping, data))
    case _ => Flipped(1)
  }

  ghost function ObjectsThen(objects: Objects, site: Site, mapping: string, data: Bytes, n: nat): Objects {
    var uploaded := objects[site.prefix + Target(site, 1, [], [], mapping).0 := T.Parquet(data)];
    var written := uploaded[Root(site) + ManifestKey(1) := T.ManifestDoc(FirstManifest(site, mapping, data))];
    if n <= 1 then objects else if n <= 3 then uploaded else if n == 4 then written
    else written[Root(site) + CURRENT_KEY := T.PointerDoc(1)]
  }

  ghost function Then(s: State, site: Site, mapping: string, data: Bytes, n: nat): State {
    if n == 0 then s
    else State(ObjectsThen(s.objects, site, mapping, data, n), s.runs[site := RunThen(site, mapping, data, n)])
  }

  function Requests(mapping: string, data: Bytes, n: nat): T.Event
    requires n < 5
  {
    match n
    case 0 => T.Begin([], false)
    case 1 => T.Upload([], mapping, data)
    case 2 => T.Accept([[]], mapping)
    case 3 => T.PutManifest("")
    case 4 => T.FlipPointer
  }

  lemma Twice(runs: map<Site, Run>, site: Site, a: Run, b: Run)
    ensures runs[site := a][site := b] == runs[site := b]
  {
  }

  lemma Unpublished(objects: Objects, root: string)
    requires root + CURRENT_KEY !in objects
    ensures T.ReadCurrent(Under(objects, root)) == Ok(EMPTY_MANIFEST)
  {
  }

  lemma BeginsFirst(objects: Objects, site: Site, mapping: string, data: Bytes)
    requires T.ReadCurrent(Under(objects, Root(site))) == Ok(EMPTY_MANIFEST)
    ensures var e := T.Begin([], false);
            Can(objects, site, Idle, e) && ObjectsAfter(objects, site, Idle, e) == objects
            && RunAfter(objects, site, Idle, e) == RunThen(site, mapping, data, 1)
  {
  }

  lemma Begins(sites: set<Site>, s: State, site: Site, mapping: string, data: Bytes)
    requires site in sites && RunOf(s, site) == Idle && Root(site) + CURRENT_KEY !in s.objects
    ensures Step(sites, s, On(site, T.Begin([], false)), Then(s, site, mapping, data, 1))
  {
    Unpublished(s.objects, Root(site));
    BeginsFirst(s.objects, site, mapping, data);
  }

  lemma Uploads(sites: set<Site>, s: State, site: Site, mapping: string, data: Bytes)
    requires site in sites
    ensures Step(sites, Then(s, site, mapping, data, 1), On(site, T.Upload([], mapping, data)), Then(s, site, mapping, data, 2))
  {
    Twice(s.runs, site, RunThen(site, mapping, data, 1), RunThen(site, mapping, data, 2));
    assert Recorded(site, RunThen(site, mapping, data, 1), [], mapping) == Entry(site, mapping, data).key;
  }

  lemma OneEntry(site: Site, mapping: string, data: Bytes)
    ensures var run, f := RunThen(site, mapping, data, 2), Entry(site, mapping, data);
            && T.AllRenderable(run.columns, [[]]) && AllSent(site, run, [[]], mapping)
            && SentFiles(site, run, [[]], mapping) == [f]
  {
    var run, f := RunThen(site, mapping, data, 2), Entry(site, mapping, data);
    assert Recorded(site, run, [], mapping) == f.key;
    assert T.AllRenderable(run.columns, [[]]) && AllSent(site, run, [[]], mapping);
    assert SentFiles(site, run, [[]], mapping) == [f];
  }

  lemma FirstWrites(mapping: string, f: ManifestFile)
    ensures ApplyMappingWrites([], mapping, [f]) == [f]
  {
    assert Others([], mapping) + [f] == [f] && [f][1..] == [];
  }

  lemma Accepts(sites: set<Site>, s: State, site: Site, mapping: string, data: Bytes)
    requires site in sites
    ensures Step(sites, Then(s, site, mapping, data, 2), On(site, T.Accept([[]], mapping)), Then(s, site, mapping, data, 3))
  {
    OneEntry(site, mapping, data);
    FirstWrites(mapping, Entry(site, mapping, data));
    assert {} + {mapping} == {mapping};
    Twice(s.runs, site, RunThen(site, mapping, data, 2), RunThen(site, mapping, data, 3));
  }

  lemma Puts(sites: set<Site>, s: State, site: Site, mapping: string, data: Bytes)
    requires site in sites
    ensures Step(sites, Then(s, site, mapping, data, 3), On(site, T.PutManifest("")), Then(s, site, mapping, data, 4))
  {
    Twice(s.runs, site, RunThen(site, mapping, data, 3), RunThen(site, mapping, data, 4));
  }

  lemma Flips(sites: set<Site>, s: State, site: Site, mapping: string, data: Bytes)
    requires site in sites
    ensures Step(sites, Then(s, site, mapping, data, 4), On(site, T.FlipPointer), Then(s, site, mapping, data, 5))
  {
    Twice(s.runs, site, RunThen(site, mapping, data, 4), RunThen(site, mapping, data, 5));
  }

  lemma Advances(sites: set<Site>, s: State, site: Site, mapping: string, data: Bytes, n: nat)
    requires site in sites && RunOf(s, site) == Idle && Root(site) + CURRENT_KEY !in s.objects && n < 5
    ensures Step(sites, Then(s, site, mapping, data, n), On(site, Requests(mapping, data, n)), Then(s, site, mapping, data, n + 1))
  {
    match n
    case 0 => Begins(sites, s, site, mapping, data);
    case 1 => Uploads(sites, s, site, mapping, data);
    case 2 => Accepts(sites, s, site, mapping, data);
    case 3 => Puts(sites, s, site, mapping, data);
    case _ => Flips(sites, s, site, mapping, data);
  }

  /** The first `n` requests of publishing one file, made after `events`. */
  ghost predicate Publishing(site: Site, mapping: string, data: Bytes, path: seq<State>, events: seq<Event>,
                             longer: seq<State>, more: seq<Event>, n: nat)
    requires |path| == |events| + 1 && |longer| == |more| + 1
  {
    && path <= longer && events <= more && |more| == |events| + n && n <= 5
    && (forall k | |events| <= k < |longer| :: longer[k] == Then(path[|events|], site, mapping, data, k - |events|))
    && forall k | |events| <= k < |more| :: more[k] == On(site, Requests(mapping, data, k - |events|))
  }

  lemma PublishingMore(site: Site, mapping: string, data: Bytes, path: seq<State>, events: seq<Event>,
                       longer: seq<State>, more: seq<Event>, n: nat)
    requires |path| == |events| + 1 && |longer| == |more| + 1 && n < 5
    requires Publishing(site, mapping, data, path, events, longer, more, n)
    ensures Publishing(site, mapping, data, path, events, longer + [Then(path[|events|], site, mapping, data, n + 1)],
                       more + [On(site, Requests(mapping, data, n))], n + 1)
  {
  }

  lemma {:induction false} Publishes(sites: set<Site>, path: seq<State>, events: seq<Event>, site: Site, mapping: string,
                                    data: Bytes, n: nat) returns (longer: seq<State>, more: seq<Event>)
    requires Behavior(sites, path, events) && site in sites && RunOf(path[|events|], site) == Idle && n <= 5
    requires Root(site) + CURRENT_KEY !in path[|events|].objects
    ensures Behavior(sites, longer, more) && Publishing(site, mapping, data, path, events, longer, more, n)
  {
    if n == 0 {
      longer, more := path, events;
    } else {
      longer, more := Publishes(sites, path, events, site, mapping, data, n - 1);
      longer, more := PublishNext(sites, path, events, site, mapping, data, n - 1, longer, more);
    }
  }

  lemma PublishNext(sites: set<Site>, path: seq<State>, events: seq<Event>, site: Site, mapping: string, data: Bytes,
                    n: nat, longer: seq<State>, more: seq<Event>) returns (longer': seq<State>, more': seq<Event>)
    requires |path| == |events| + 1 && site in sites && RunOf(path[|events|], site) == Idle && n < 5
    requires Root(site) + CURRENT_KEY !in path[|events|].objects
    requires Behavior(sites, longer, more) && Publishing(site, mapping, data, path, events, longer, more, n)
    ensures Behavior(sites, longer', more') && Publishing(site, mapping, data, path, events, longer', more', n + 1)
  {
    var s := path[|events|];
    var e, t := On(site, Requests(mapping, data, n)), Then(s, site, mapping, data, n + 1);
    Advances(sites, s, site, mapping, data, n);
    assert longer[|more|] == Then(s, site, mapping, data, n);
    RunGrows(sites, longer, more, e, t);
    PublishingMore(site, mapping, data, path, events, longer, more, n);
    longer', more' := longer + [t], more + [e];
  }

  // Tidiness is what it takes

  lemma FirstPublish(sites: set<Site>, site: Site, mapping: string, data: Bytes, n: nat)
      returns (path: seq<State>, events: seq<Event>)
    requires site in sites && n <= 5
    ensures Behavior(sites, path, events) && |events| == n
    ensures forall k | 0 <= k <= n :: path[k] == Then(State(map[], map[]), site, mapping, data, k)
    ensures forall k | 0 <= k < n :: events[k] == On(site, Requests(mapping, data, k))
  {
    var s := State(map[], map[]);
    path, events := Publishes(sites, [s], [], site, mapping, data, n);
  }

  /** What the protocol has a table publish with these requests. */
  lemma ProtocolPublishes(shadow: seq<T.State>, requests: seq<Option<T.Event>>, mapping: string, data: Bytes)
    requires Follows(shadow, requests) && |requests| == 4
    requires forall k | 0 <= k < 4 :: requests[k] == Some(Requests(mapping, data, k))
    ensures ManifestKey(1) in shadow[4].store && shadow[4].store[ManifestKey(1)].ManifestDoc?
    ensures var files := shadow[4].store[ManifestKey(1)].manifest.files;
            |files| == 1 && files[0].key == FileKey(1, [], [], mapping)
  {
    assert FollowsAt(shadow, requests, 0) && FollowsAt(shadow, requests, 1);
    assert shadow[2].run == T.Writing(1, [], [], {});
    assert FollowsAt(shadow, requests, 2);
    AcceptedOne(shadow[2], mapping);
    assert FollowsAt(shadow, requests, 3);
  }

  lemma AcceptedOne(s: T.State, mapping: string)
    requires s.run == T.Writing(1, [], [], {}) && T.Enabled(s, T.Accept([[]], mapping))
    ensures var t := T.Next(s, T.Accept([[]], mapping));
            t.run.Writing? && t.run.version == 1 && |t.run.files| == 1 && t.run.files[0].key == FileKey(1, [], [], mapping)
  {
    var w := T.Written(s.store, s.run, [[]], mapping);
    assert w == [w[0]] && [w[0]][1..] == [];
    assert Others([], mapping) + w == w;
  }

  /** A table with a slash in its id publishes a manifest the protocol does not. */
  lemma SlashNotProtocol(sites: set<Site>, site: Site) returns (path: seq<State>, events: seq<Event>)
    requires site in sites && '/' in site.table
    ensures Behavior(sites, path, events) && !IsProtocolRun(path, events, site)
  {
    path, events := FirstPublish(sites, site, "m", [], 4);
    forall shadow: seq<T.State> ensures !Shadows(path, events, site, shadow) {
      SlashNoShadow(path, events, site, shadow);
    }
  }

  lemma SlashNoShadow(path: seq<State>, events: seq<Event>, site: Site, shadow: seq<T.State>)
    requires |path| == |events| + 1 && |events| == 4 && '/' in site.table
    requires path[4] == Then(State(map[], map[]), site, "m", [], 4)
    requires forall k | 0 <= k < 4 :: events[k] == On(site, Requests("m", [], k))
    ensures !Shadows(path, events, site, shadow)
  {
    SlashMisses(site, 1, [], [], "m");
    SlashKeyLength(site, "m");
    if Shadows(path, events, site, shadow) {
      ProtocolPublishes(shadow, RequestsOf(events, site), "m", []);
      ManifestUnder(State(map[], map[]), site, "m", []);
    }
  }

  lemma ManifestUnder(s: State, site: Site, mapping: string, data: Bytes)
    ensures var store := Under(Then(s, site, mapping, data, 4).objects, Root(site));
            ManifestKey(1) in store && store[ManifestKey(1)] == T.ManifestDoc(FirstManifest(site, mapping, data))
  {
  }

  /** An upload of an inner table shows up in the outer one, which asked for nothing. */
  lemma NestedNotProtocol(sites: set<Site>, outer: Site, inner: Site) returns (path: seq<State>, events: seq<Event>)
    requires outer in sites && inner in sites && outer != inner && '/' !in inner.table
    requires StartsWith(Root(inner), Root(outer))
    ensures Behavior(sites, path, events) && !IsProtocolRun(path, events, outer)
  {
    path, events := FirstPublish(sites, inner, "m", [], 2);
    var key := FileKey(1, [], [], "m");
    TargetAt(inner, 1, [], [], "m");
    assert Root(inner) + key in path[2].objects;
    assert events[0].site == events[1].site == inner;
    forall shadow: seq<T.State> ensures !Shadows(path, events, outer, shadow) {
      NestedNoShadow(path, events, outer, shadow, Root(inner) + key);
    }
  }

  lemma NestedNoShadow(path: seq<State>, events: seq<Event>, outer: Site, shadow: seq<T.State>, key: string)
    requires |path| == |events| + 1 && |events| == 2 && events[0].site != outer && events[1].site != outer
    requires key in path[2].objects && StartsWith(key, Root(outer))
    ensures !Shadows(path, events, outer, shadow)
  {
    UnderHas(path[2].objects, Root(outer), key);
    if Shadows(path, events, outer, shadow) { PausedIsEmpty(shadow, RequestsOf(events, outer)); }
  }

  lemma UnderHas(objects: Objects, root: string, key: string)
    requires key in objects && StartsWith(key, root)
    ensures Under(objects, root) != map[]
  {
    assert root + key[|root|..] == key;
    assert key[|root|..] in Under(objects, root);
  }

  lemma PausedIsEmpty(shadow: seq<T.State>, requests: seq<Option<T.Event>>)
    requires Follows(shadow, requests) && |requests| == 2 && requests[0].None? && requests[1].None?
    ensures shadow[2].store == map[]
  {
    assert FollowsAt(shadow, requests, 0) && FollowsAt(shadow, requests, 1);
  }

  ghost predicate AllProtocolRuns(sites: set<Site>) {
    forall path: seq<State>, events: seq<Event>, site | Behavior(sites, path, events) && site in sites ::
      IsProtocolRun(path, events, site)
  }

  /** In every run of the bucket every table goes through a run of the publish
      protocol iff no table id has a slash and no full prefix begins another's. */
  lemma ProtocolIffTidy(sites: set<Site>)
    ensures AllProtocolRuns(sites) <==> Tidy(sites)
  {
    if Tidy(sites) {
      forall path: seq<State>, events: seq<Event>, site | Behavior(sites, path, events) && site in sites
        ensures IsProtocolRun(path, events, site)
      {
        var shadow := TableShadows(sites, path, events, site);
      }
    } else if a :| a in sites && '/' in a.table {
      var path, events := SlashNotProtocol(sites, a);
    } else {
      var a, b :| a in sites && b in sites && a != b && StartsWith(Root(b), Root(a));
      var path, events := NestedNotProtocol(sites, a, b);
    }
  }

  // What is lost

  /** Without partition columns, an upload of a table with a slash is the file of
      another table and another mapping. */
  lemma SlashOverwrites(prefix: string, head: string, tail: string, version: nat, mapping: string)
    requires '/' !in head
    ensures prefix + Target(Site(prefix, head + "/" + tail), version, [], [], mapping).0
         == Root(Site(prefix, head)) + FileKey(version, [], [], tail + "/" + mapping)
  {
    SplitNestedKey(head, tail, [], [], mapping);
    var relative := VersionPrefix(version) + (tail + "/" + ("" + (mapping + ".parquet")));
    assert relative == FileKey(version, [], [], tail + "/" + mapping);
    assert prefix + (head + "/" + relative) == prefix + head + "/" + relative;
  }

  /** What a table with a slash publishes as version 1 names an object that does
      not exist. */
  lemma SlashPublishesNothing(sites: set<Site>, site: Site, mapping: string, data: Bytes)
      returns (path: seq<State>, events: seq<Event>)
    requires site in sites && '/' in site.table
    ensures Behavior(sites, path, events)
    ensures var s := path[|events|];
            && CurrentOf(s, site).Ok? && CurrentOf(s, site).value.version == 1
            && CurrentOf(s, site) == T.ReadVersion(Under(s.objects, Root(site)), 1)
            && |CurrentOf(s, site).value.files| == 1
            && Root(site) + CurrentOf(s, site).value.files[0].key !in s.objects
  {
    path, events := FirstPublish(sites, site, mapping, data, 5);
    var f := Entry(site, mapping, data);
    SlashMisses(site, 1, [], [], mapping);
    PublishedReads(State(map[], map[]), site, mapping, data);
    NotReserved(Root(site), f.key);
  }

  lemma PublishedReads(s: State, site: Site, mapping: string, data: Bytes)
    ensures CurrentOf(Then(s, site, mapping, data, 5), site) == Ok(FirstManifest(site, mapping, data))
    ensures T.ReadVersion(Under(Then(s, site, mapping, data, 5).objects, Root(site)), 1)
         == Ok(FirstManifest(site, mapping, data))
  {
    var store := Under(Then(s, site, mapping, data, 5).objects, Root(site));
    assert store[CURRENT_KEY] == T.PointerDoc(1);
    TableSafety.ManifestKeyKind(1);
    RootedDiffer(Root(site), ManifestKey(1), CURRENT_KEY);
    assert store[ManifestKey(1)] == T.ManifestDoc(FirstManifest(site, mapping, data));
  }

  lemma RootedDiffer(root: string, a: string, b: string)
    requires a != b
    ensures root + a != root + b
  {
    assert (root + a)[|root|..] == a && (root + b)[|root|..] == b;
  }

  /** A key under `v1/` is not the pointer's or a manifest's. */
  lemma NotReserved(root: string, key: string)
    requires StartsWith(key, VersionPrefix(1))
    ensures root + key != root + CURRENT_KEY && root + key != root + ManifestKey(1)
  {
    assert key[0] == 'v' && (root + key)[|root|] == 'v';
    assert (root + CURRENT_KEY)[|root|] == '_' && (root + ManifestKey(1))[|root|] == '_';
  }
}
