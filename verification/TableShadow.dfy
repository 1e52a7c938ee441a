/**
 Runs of the publish protocol with pauses: at some moments the table does
 nothing because something else happens in the bucket. The theorems about a
 table hold of such runs too, at the same moments.
 */
module TableShadow {
  import opened Text
  import opened Manifest
  import opened TableProtocol
  import opened TableSafety
  import opened VacuumSafety
  import opened TableTheorems

  ghost predicate Follows(shadow: seq<State>, requests: seq<Option<Event>>) {
    && |shadow| == |requests| + 1
    && Init(shadow[0])
    && forall i | 0 <= i < |requests| :: FollowsAt(shadow, requests, i)
  }

  ghost predicate FollowsAt(shadow: seq<State>, requests: seq<Option<Event>>, i: nat)
    requires |shadow| == |requests| + 1 && i < |requests|
  {
    match requests[i]
    case None => shadow[i + 1] == shadow[i]
    case Some(e) => Step(shadow[i], e, shadow[i + 1])
  }

  lemma FollowsOn(shadow: seq<State>, requests: seq<Option<Event>>, request: Option<Event>, t: State)
    requires Follows(shadow, requests)
    requires match request
             case None => t == shadow[|requests|]
             case Some(e) => Step(shadow[|requests|], e, t)
    ensures Follows(shadow + [t], requests + [request])
  {
    var longer, more := shadow + [t], requests + [request];
    forall i | 0 <= i < |more| ensures FollowsAt(longer, more, i) {
      if i < |requests| { assert FollowsAt(shadow, requests, i); }
    }
  }

  /** The protocol run without the pauses; `at` says when each request was made. */
  ghost predicate Squeezed(shadow: seq<State>, requests: seq<Option<Event>>, i: nat, path: seq<State>,
                           events: seq<Event>, at: seq<nat>)
    requires Follows(shadow, requests) && i < |shadow|
  {
    && Behavior(path, events) && |at| == |events| && path[|events|] == shadow[i]
    && forall n | 0 <= n < |events| :: MadeAt(shadow, requests, i, path, events, at, n)
  }

  ghost predicate MadeAt(shadow: seq<State>, requests: seq<Option<Event>>, i: nat, path: seq<State>,
                         events: seq<Event>, at: seq<nat>, n: nat)
    requires Follows(shadow, requests) && i < |shadow| && |path| == |events| + 1 && |at| == |events| && n < |events|
  {
    at[n] < i && requests[at[n]] == Some(events[n]) && shadow[at[n]] == path[n]
  }

  lemma {:induction false} Squeeze(shadow: seq<State>, requests: seq<Option<Event>>, i: nat)
      returns (path: seq<State>, events: seq<Event>, at: seq<nat>)
    requires Follows(shadow, requests) && i < |shadow|
    ensures Squeezed(shadow, requests, i, path, events, at)
  {
    if i == 0 {
      path, events, at := [shadow[0]], [], [];
    } else {
      path, events, at := Squeeze(shadow, requests, i - 1);
      assert FollowsAt(shadow, requests, i - 1);
      match requests[i - 1]
      case None =>
        forall n | 0 <= n < |events| ensures MadeAt(shadow, requests, i, path, events, at, n) {
          assert MadeAt(shadow, requests, i - 1, path, events, at, n);
        }
      case Some(e) =>
        path, events, at := SqueezeOne(shadow, requests, i - 1, path, events, at, e);
    }
  }

  lemma SqueezeOne(shadow: seq<State>, requests: seq<Option<Event>>, i: nat, path: seq<State>, events: seq<Event>,
                   at: seq<nat>, e: Event) returns (path': seq<State>, events': seq<Event>, at': seq<nat>)
    requires Follows(shadow, requests) && i < |requests| && requests[i] == Some(e)
    requires Squeezed(shadow, requests, i, path, events, at)
    ensures Squeezed(shadow, requests, i + 1, path', events', at')
  {
    assert FollowsAt(shadow, requests, i);
    BehaviorGrows(path, events, e);
    path', events', at' := path + [shadow[i + 1]], events + [e], at + [i];
    SqueezedAt(shadow, requests, i, path, events, at, e, path', events', at');
  }

  lemma SqueezedAt(shadow: seq<State>, requests: seq<Option<Event>>, i: nat, path: seq<State>, events: seq<Event>,
                   at: seq<nat>, e: Event, path': seq<State>, events': seq<Event>, at': seq<nat>)
    requires Follows(shadow, requests) && i < |requests| && requests[i] == Some(e)
    requires |path| == |events| + 1 && |at| == |events| && path[|events|] == shadow[i]
    requires forall n | 0 <= n < |events| :: MadeAt(shadow, requests, i, path, events, at, n)
    requires path' == path + [shadow[i + 1]] && events' == events + [e] && at' == at + [i]
    ensures var next := i + 1; forall n | 0 <= n < |events'| :: MadeAt(shadow, requests, next, path', events', at', n)
  {
    var next := i + 1;
    forall n | 0 <= n < |events'| ensures MadeAt(shadow, requests, next, path', events', at', n) {
      if n < |events| { assert MadeAt(shadow, requests, i, path, events, at, n); }
    }
  }

  lemma ShadowInv(shadow: seq<State>, requests: seq<Option<Event>>, i: nat)
    requires Follows(shadow, requests) && i < |shadow|
    ensures Inv(shadow[i])
  {
    var path, events, at := Squeeze(shadow, requests, i);
    Reachable(path, events, |events|);
  }

  lemma ShadowTimeTravel(shadow: seq<State>, requests: seq<Option<Event>>, i: nat, v: nat) returns (j: nat)
    requires Follows(shadow, requests) && i < |shadow| && InWindow(v, Current(shadow[i]))
    ensures j < i && requests[j].Some? && requests[j].value.PutManifest?
    ensures shadow[j].run.Writing? && shadow[j].run.version == v
    ensures SameAsBuilt(shadow[j].store, shadow[j].run.files, shadow[i].store, v)
  {
    var path, events, at := Squeeze(shadow, requests, i);
    var n := TimeTravel(path, events, |events|, v);
    assert MadeAt(shadow, requests, i, path, events, at, n);
    j := at[n];
  }

  lemma ShadowIsolation(shadow: seq<State>, requests: seq<Option<Event>>, i: nat)
    requires Follows(shadow, requests) && i < |shadow|
    ensures ReadCurrent(shadow[i].store).Ok?
    ensures ReadCurrent(shadow[i].store).value.version == Current(shadow[i])
    ensures CURRENT_KEY !in shadow[i].store <==> Current(shadow[i]) == 0
  {
    ShadowInv(shadow, requests, i);
    ReadsCurrent(shadow[i]);
  }

  lemma {:induction false} ShadowMonotone(shadow: seq<State>, requests: seq<Option<Event>>, i: nat, k: nat)
    requires Follows(shadow, requests) && i <= k < |shadow|
    ensures shadow[i].published <= shadow[k].published
    decreases k
  {
    if i < k {
      ShadowMonotone(shadow, requests, i, k - 1);
      assert FollowsAt(shadow, requests, k - 1);
      ShadowInv(shadow, requests, k - 1);
      if requests[k - 1].Some? { StepKeeps(shadow[k - 1], requests[k - 1].value, shadow[k]); }
    }
  }

  // Vacuum

  /** From `i` to `k` the table makes no request but deletes, all of which succeed. */
  ghost predicate OnlyDeletes(requests: seq<Option<Event>>, i: nat, k: nat)
    requires i <= k <= |requests|
  {
    forall n | i <= n < k :: requests[n] == None || requests[n] == Some(Delete(true))
  }

  lemma {:induction false} ShadowDeletes(shadow: seq<State>, requests: seq<Option<Event>>, i: nat, k: nat) returns (n: nat)
    requires Follows(shadow, requests) && i <= k < |shadow| && OnlyDeletes(requests, i, k) && shadow[i].run.Vacuuming?
    ensures n <= |shadow[i].run.targets|
    ensures shadow[k].run == Vacuuming(shadow[i].run.targets[n..])
    ensures shadow[k].store == Removed(shadow[i].store, shadow[i].run.targets[..n])
    decreases k
  {
    var targets := shadow[i].run.targets;
    if i == k {
      n := 0;
    } else {
      n := ShadowDeletes(shadow, requests, i, k - 1);
      assert FollowsAt(shadow, requests, k - 1);
      assert requests[k - 1] == None || requests[k - 1] == Some(Delete(true));
      if requests[k - 1].Some? {
        assert targets[..n + 1] == targets[..n] + [targets[n]];
        n := n + 1;
      }
    }
  }

  /** A vacuum that ends with all its deletes done leaves exactly what survives. */
  lemma ShadowVacuum(shadow: seq<State>, requests: seq<Option<Event>>, i: nat, k: nat, listing: seq<string>)
    requires Follows(shadow, requests) && i < k < |shadow| && requests[i] == Some(StartVacuum(listing))
    requires OnlyDeletes(requests, i + 1, k) && shadow[k].run == Vacuuming([])
    ensures forall key :: key in shadow[k].store <==> Surviving(shadow[i], key)
  {
    VacuumBegins(shadow, requests, i, listing);
    AllRemoved(shadow, requests, i + 1, k);
  }

  lemma VacuumBegins(shadow: seq<State>, requests: seq<Option<Event>>, i: nat, listing: seq<string>)
    requires Follows(shadow, requests) && i < |requests| && requests[i] == Some(StartVacuum(listing))
    ensures shadow[i + 1].run.Vacuuming?
    ensures forall key :: key in Removed(shadow[i + 1].store, shadow[i + 1].run.targets) <==> Surviving(shadow[i], key)
  {
    assert FollowsAt(shadow, requests, i);
    ShadowInv(shadow, requests, i);
    StartVacuumPlans(shadow[i], listing, shadow[i + 1]);
  }

  lemma AllRemoved(shadow: seq<State>, requests: seq<Option<Event>>, i: nat, k: nat)
    requires Follows(shadow, requests) && i <= k < |shadow| && OnlyDeletes(requests, i, k) && shadow[i].run.Vacuuming?
    requires shadow[k].run == Vacuuming([])
    ensures shadow[k].store == Removed(shadow[i].store, shadow[i].run.targets)
  {
    var n := ShadowDeletes(shadow, requests, i, k);
    assert shadow[i].run.targets[..n] == shadow[i].run.targets;
  }
}
