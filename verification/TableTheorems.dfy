/**
 What holds over any history of a table: runs that end anywhere, runs that
 reuse a dead run's version number, and vacuums that stop halfway.
 */
module TableTheorems {
  import opened Manifest
  import opened TableProtocol
  import opened TableSafety
  import opened VacuumSafety

  ghost predicate Behavior(path: seq<State>, events: seq<Event>) {
    && |path| == |events| + 1
    && Init(path[0])
    && forall i | 0 <= i < |events| :: StepAt(path, events, i)
  }

  ghost predicate StepAt(path: seq<State>, events: seq<Event>, i: nat)
    requires |path| == |events| + 1 && i < |events|
  {
    Step(path[i], events[i], path[i + 1])
  }

  ghost predicate Step(s: State, e: Event, t: State) {
    Enabled(s, e) && t == Next(s, e)
  }

  ghost function Last(path: seq<State>): State
    requires path != []
  {
    path[|path| - 1]
  }

  lemma BehaviorGrows(path: seq<State>, events: seq<Event>, e: Event)
    requires Behavior(path, events) && Enabled(Last(path), e)
    ensures Behavior(path + [Next(Last(path), e)], events + [e])
  {
    var longer, more := path + [Next(Last(path), e)], events + [e];
    forall i | 0 <= i < |more| ensures StepAt(longer, more, i) {
      if i < |events| { assert StepAt(path, events, i); }
    }
  }

  lemma EventKeeps(s: State, e: Event)
    requires Inv(s) && Enabled(s, e)
    ensures Inv(Next(s, e))
    ensures s.published <= Next(s, e).published && Current(Next(s, e)) <= Current(s) + 1
  {
    match e
    case Begin(columns, clean) => BeginKeeps(s, columns, clean);
    case Upload(cells, mapping, data) => UploadKeeps(s, cells, mapping, data);
    case Accept(tuples, mapping) => AcceptKeeps(s, tuples, mapping);
    case PutManifest(createdAt) => PutManifestKeeps(s, createdAt);
    case FlipPointer => FlipKeeps(s);
    case StartVacuum(listing) => StartVacuumKeeps(s, listing);
    case Delete(ok) => DeleteKeeps(s, ok);
    case End =>
  }

  lemma StepKeeps(s: State, e: Event, t: State)
    requires Inv(s) && Step(s, e, t)
    ensures Inv(t) && s.published <= t.published && Current(t) <= Current(s) + 1
  {
    EventKeeps(s, e);
  }

  lemma {:induction false} Reachable(path: seq<State>, events: seq<Event>, i: nat)
    requires Behavior(path, events) && i < |path|
    ensures Inv(path[i])
  {
    if i > 0 {
      Reachable(path, events, i - 1);
      assert StepAt(path, events, i - 1);
      StepKeeps(path[i - 1], events[i - 1], path[i]);
    }
  }

  /** The pointer never moves back, and one event moves it by at most one. */
  lemma {:induction false} PointerMonotone(path: seq<State>, events: seq<Event>, i: nat, k: nat)
    requires Behavior(path, events) && i <= k < |path|
    ensures Current(path[i]) <= Current(path[k]) && path[i].published <= path[k].published
    ensures k == i + 1 ==> Current(path[k]) <= Current(path[i]) + 1
    decreases k
  {
    if i < k {
      PointerMonotone(path, events, i, k - 1);
      Reachable(path, events, k - 1);
      assert StepAt(path, events, k - 1);
      StepKeeps(path[k - 1], events[k - 1], path[k]);
    }
  }

  /** A flip comes straight after the manifest it publishes. */
  lemma FlipFollowsManifest(path: seq<State>, events: seq<Event>, i: nat)
    requires Behavior(path, events) && i < |events| && path[i].run.ManifestWritten?
    ensures i > 0 && events[i - 1].PutManifest? && Step(path[i - 1], events[i - 1], path[i])
  {
    if i > 0 { assert StepAt(path, events, i - 1); }
  }

  lemma FlipPublishes(s: State, e: Event, t: State, v: nat)
    requires Inv(s) && Step(s, e, t) && Current(s) < v <= Current(t)
    ensures e.FlipPointer? && s.run.ManifestWritten?
    ensures s.run.snapshot.manifest.version == v && VersionOf(t.published, v) == s.run.snapshot
  {
  }

  /** The events at which a version's manifest was written and the pointer flipped. */
  lemma {:induction false} PublishedAt(path: seq<State>, events: seq<Event>, i: nat, v: nat) returns (j: nat)
    requires Behavior(path, events) && i < |path| && 1 <= v <= Current(path[i])
    ensures j + 2 <= i && events[j].PutManifest? && events[j + 1].FlipPointer?
    ensures Step(path[j], events[j], path[j + 1]) && path[j].run.version == v
    ensures path[j + 1].run.snapshot == VersionOf(path[i].published, v)
    decreases i
  {
    assert i > 0 by { assert Current(path[0]) == 0; }
    Reachable(path, events, i - 1);
    PointerMonotone(path, events, i - 1, i);
    if v <= Current(path[i - 1]) {
      j := PublishedAt(path, events, i - 1, v);
    } else {
      assert StepAt(path, events, i - 1);
      FlipPublishes(path[i - 1], events[i - 1], path[i], v);
      FlipFollowsManifest(path, events, i - 1);
      j := i - 2;
      assert StepAt(path, events, j);
    }
  }

  /** The manifest of a version, and every file it lists, are in `later`
      exactly as they were in `built`, where the list was `files`. */
  ghost predicate SameAsBuilt(built: Store, files: seq<ManifestFile>, later: Store, v: nat) {
    && ReadVersion(later, v).Ok?
    && ReadVersion(later, v).value.version == v
    && ReadVersion(later, v).value.files == files
    && forall f | f in files :: HoldsData(built, f.key) && f.key in later && later[f.key] == built[f.key]
                                && |built[f.key].data| == f.bytes
  }

  /** Time travel: every version in the window reads back, byte for byte, as
      the run that built it left it, whatever happened since. */
  lemma TimeTravel(path: seq<State>, events: seq<Event>, i: nat, v: nat) returns (j: nat)
    requires Behavior(path, events) && i < |path| && InWindow(v, Current(path[i]))
    ensures j + 2 <= i && events[j].PutManifest? && events[j + 1].FlipPointer?
    ensures path[j].run.Writing? && path[j].run.version == v
    ensures SameAsBuilt(path[j].store, path[j].run.files, path[i].store, v)
  {
    j := PublishedAt(path, events, i, v);
    Reachable(path, events, i);
    Reachable(path, events, j);
    var snapshot := VersionOf(path[i].published, v);
    assert Held(path[i].store, snapshot) && WellMade(snapshot, v);
    forall f | f in path[j].run.files
      ensures HoldsData(path[j].store, f.key) && f.key in path[i].store && path[i].store[f.key] == path[j].store[f.key]
      ensures |path[j].store[f.key].data| == f.bytes
    {
      assert FileOk(path[j].store, path[j].run, f);
      assert f in snapshot.manifest.files;
    }
  }

  /** Snapshot isolation: in every state a reader finds no pointer and an
      empty table, or a complete version just as its run built it. */
  lemma SnapshotIsolation(path: seq<State>, events: seq<Event>, i: nat)
    requires Behavior(path, events) && i < |path|
    ensures ReadCurrent(path[i].store).Ok?
    ensures ReadCurrent(path[i].store).value.version == Current(path[i])
    ensures "_current.json" !in path[i].store <==> Current(path[i]) == 0
    ensures Current(path[i]) > 0 ==>
              exists j: nat :: j + 2 <= i && events[j].PutManifest? && path[j].run.Writing?
                && path[j].run.version == Current(path[i])
                && StrictlySorted(path[j].run.files)
                && SameAsBuilt(path[j].store, path[j].run.files, path[i].store, Current(path[i]))
                && ReadCurrent(path[i].store) == ReadVersion(path[i].store, Current(path[i]))
  {
    Reachable(path, events, i);
    ReadsCurrent(path[i]);
    if Current(path[i]) > 0 {
      var j := TimeTravel(path, events, i, Current(path[i]));
      Reachable(path, events, j);
    }
  }

  /** A version that has left the window never comes back into it. */
  lemma NeverReenters(path: seq<State>, events: seq<Event>, i: nat, k: nat, v: nat)
    requires Behavior(path, events) && i <= k < |path|
    requires 1 <= v <= Current(path[i]) && !InWindow(v, Current(path[i]))
    ensures !InWindow(v, Current(path[k]))
  {
    PointerMonotone(path, events, i, k);
  }

  /** No two flips publish the same version. */
  lemma FlipsDiffer(path: seq<State>, events: seq<Event>, i: nat, k: nat)
    requires Behavior(path, events) && i < k < |events| && events[i].FlipPointer? && events[k].FlipPointer?
    ensures path[i].run.ManifestWritten? && path[k].run.ManifestWritten?
    ensures path[i].run.snapshot.manifest.version < path[k].run.snapshot.manifest.version
  {
    Reachable(path, events, i);
    Reachable(path, events, k);
    PointerMonotone(path, events, i + 1, k);
    assert StepAt(path, events, i) && StepAt(path, events, k);
  }

  ghost predicate AllDeleted(path: seq<State>, events: seq<Event>, from: nat, n: nat)
    requires Behavior(path, events)
  {
    from + n <= |events| && forall i | from <= i < from + n :: events[i] == Delete(true)
  }

  lemma {:induction false} DeletesRemove(path: seq<State>, events: seq<Event>, from: nat, n: nat)
    requires Behavior(path, events) && AllDeleted(path, events, from, n)
    requires path[from].run.Vacuuming? && n <= |path[from].run.targets|
    ensures path[from + n].store == Removed(path[from].store, path[from].run.targets[..n])
    ensures path[from + n].run == Vacuuming(path[from].run.targets[n..])
  {
    if n > 0 {
      DeletesRemove(path, events, from, n - 1);
      var targets := path[from].run.targets;
      assert StepAt(path, events, from + n - 1);
      assert targets[..n] == targets[..n - 1] + [targets[n - 1]];
    }
  }

  lemma AllTargetsRemoved(path: seq<State>, events: seq<Event>, from: nat)
    requires Behavior(path, events) && from < |path| && path[from].run.Vacuuming?
    requires AllDeleted(path, events, from, |path[from].run.targets|)
    ensures path[from + |path[from].run.targets|].store == Removed(path[from].store, path[from].run.targets)
  {
    var targets := path[from].run.targets;
    DeletesRemove(path, events, from, |targets|);
    assert targets[..|targets|] == targets;
  }

  lemma StartVacuumPlans(s: State, listing: seq<string>, t: State)
    requires Inv(s) && Step(s, StartVacuum(listing), t)
    ensures t.store == s.store && t.run.Vacuuming?
    ensures forall key :: key in Removed(s.store, t.run.targets) <==> Surviving(s, key)
  {
    VacuumExact(s, listing);
  }

  lemma VacuumStarts(path: seq<State>, events: seq<Event>, i: nat, listing: seq<string>)
    requires Behavior(path, events) && i < |events| && events[i] == StartVacuum(listing)
    ensures path[i + 1].store == path[i].store && path[i + 1].run.Vacuuming?
    ensures forall key :: key in Removed(path[i].store, path[i + 1].run.targets) <==> Surviving(path[i], key)
  {
    Reachable(path, events, i);
    assert StepAt(path, events, i);
    StartVacuumPlans(path[i], listing, path[i + 1]);
  }

  /** Vacuum exactness: when every delete succeeds, the keys left under the
      table are the pointer, the window's manifests, and the files they name. */
  lemma VacuumLeavesExactly(path: seq<State>, events: seq<Event>, i: nat, listing: seq<string>)
    requires Behavior(path, events) && i < |events| && events[i] == StartVacuum(listing)
    requires path[i + 1].run.Vacuuming?
    requires AllDeleted(path, events, i + 1, |path[i + 1].run.targets|)
    ensures var done := path[i + 1 + |path[i + 1].run.targets|];
            forall key :: key in done.store <==> Surviving(path[i], key)
  {
    VacuumStarts(path, events, i, listing);
    AllTargetsRemoved(path, events, i + 1);
  }
}
