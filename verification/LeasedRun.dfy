/**
 The assumptions of LeasedWarehouse and LeasedPublish can be met: a run in which a
 handler takes its job through the queue, and publishes a version of its table.
 */
module LeasedRun {
  import opened Text
  import opened Manifest
  import Q = Queue
  import QueueCall
  import T = TableProtocol
  import W = Warehouse
  import P = LeasedPublish
  import TableTheorems
  import opened LeasedWarehouse

  ghost predicate Reached(cfg: Q.Settings, layout: Layout, s: State) {
    exists path: seq<State>, events: seq<Event> ::
      Behavior(cfg, layout, path, events) && path[|events|] == s
  }

  lemma ReachedNext(cfg: Q.Settings, layout: Layout, s: State, e: Event) returns (t: State)
    requires Reached(cfg, layout, s) && Enabled(cfg, layout, s, e)
    requires Trusted(cfg, layout, Next(cfg, layout, s, e))
    ensures t == Next(cfg, layout, s, e) && Reached(cfg, layout, t)
  {
    t := Next(cfg, layout, s, e);
    var path: seq<State>, events: seq<Event> :| Behavior(cfg, layout, path, events) && path[|events|] == s;
    var longer, more := path + [t], events + [e];
    forall i | 0 <= i < |more| ensures StepAt(cfg, layout, longer, more, i) {
      if i < |events| { assert StepAt(cfg, layout, path, events, i); }
    }
    forall i | 0 <= i < |longer| ensures Trusted(cfg, layout, longer[i]) {
      if i < |path| { assert Trusted(cfg, layout, path[i]); }
    }
    assert Behavior(cfg, layout, longer, more);
  }

  /** There is one handler, just leased, and it stands here. */
  ghost predicate Solo(s: Q.State, m: Q.Msg, pc: Q.Pc) {
    && s.now == 0 && s.handlers.Keys == {0}
    && s.handlers[0].msg == m && s.handlers[0].pc == pc && s.handlers[0].leasedAt == 0
  }

  lemma SoloTrusted(cfg: Q.Settings, layout: Layout, m: Q.Msg, pc: Q.Pc, s: State)
    requires Solo(s.queue, m, pc) && cfg.lockTtlMs >= 0 && layout.owner(m.prefix) == m.pipeline
    ensures Trusted(cfg, layout, s)
  {
  }

  /** The handler takes a step whose effect is `f`; the bucket stays as it is. */
  lemma Acts(cfg: Q.Settings, layout: Layout, m: Q.Msg, s: State, pc: Q.Pc, e: Q.Event, f: Q.Effect) returns (t: State)
    requires Reached(cfg, layout, s) && Solo(s.queue, m, pc) && cfg.lockTtlMs >= 0 && layout.owner(m.prefix) == m.pipeline
    requires !Q.IsServerEvent(e) && e.h == 0 && Q.CanTake(cfg, Q.ViewOf(s.queue, 0), e)
    requires Q.EffectOf(cfg, Q.ViewOf(s.queue, 0), e) == f && f.pc.Some? && f.leasedAt == 0
    ensures Reached(cfg, layout, t) && Solo(t.queue, m, f.pc.value)
    ensures Q.LiveOf(t.queue, m.job) == f.live && (f.lock.KeepLock? ==> t.queue.locks == s.queue.locks)
    ensures t == s.(queue := t.queue)
  {
    QueueCall.AfterApply(s.queue, 0, f);
    SoloTrusted(cfg, layout, m, f.pc.value, s.(queue := Q.Apply(s.queue, 0, f)));
    t := ReachedNext(cfg, layout, s, QueueStep(e));
  }

  ghost function Empty(): State {
    State(Q.State(0, [], 0, {}, map[], map[], map[], map[], 0, map[], Q.Audit(map[], {}, multiset{}, [], {})), map[], map[])
  }

  lemma Queues(cfg: Q.Settings, layout: Layout, m: Q.Msg) returns (s: State)
    ensures Reached(cfg, layout, s)
    ensures s == Empty().(queue := Q.ServerNext(Empty().queue, Q.Enqueue(m))) && s.queue.stream == [Q.Parsed(m)]
  {
    s := Empty();
    assert Behavior(cfg, layout, [s], []);
    s := ReachedNext(cfg, layout, s, QueueStep(Q.Enqueue(m)));
    assert s.queue.stream == [Q.Parsed(m)];
  }

  lemma Arrives(cfg: Q.Settings, layout: Layout, m: Q.Msg) returns (s: State)
    requires cfg.lockTtlMs >= 0 && layout.owner(m.prefix) == m.pipeline
    ensures Reached(cfg, layout, s) && Solo(s.queue, m, Q.Fresh)
    ensures Q.LiveOf(s.queue, m.job) == Q.Live(Some(Q.Queued), 0, Some(m.enqueuedAt)) && s.queue.locks == map[]
    ensures s == Empty().(queue := s.queue)
  {
    s := Queues(cfg, layout, m);
    s := ReachedNext(cfg, layout, s, QueueStep(Q.Deliver));
  }

  /** The settings and the layout let the job run. */
  ghost predicate MayRun(cfg: Q.Settings, layout: Layout, m: Q.Msg) {
    cfg.lockTtlMs >= 0 && cfg.maxAttempts >= 1 && cfg.gate(m.prefix) && layout.owner(m.prefix) == m.pipeline
  }

  lemma Counts(cfg: Q.Settings, layout: Layout, m: Q.Msg) returns (s: State)
    requires MayRun(cfg, layout, m)
    ensures Reached(cfg, layout, s) && Solo(s.queue, m, Q.Counted(1)) && s.queue.locks == map[]
    ensures s == Empty().(queue := s.queue)
  {
    s := Arrives(cfg, layout, m);
    s := Acts(cfg, layout, m, s, Q.Fresh, Q.ReadStatus(0, false), Q.Goto(Q.ViewOf(s.queue, 0), Q.Cleared));
    var v := Q.ViewOf(s.queue, 0);
    s := Acts(cfg, layout, m, s, Q.Cleared, Q.Increment(0), Q.Goto(v, Q.Counted(1)).(live := v.live.(attempts := 1)));
  }

  lemma Executes(cfg: Q.Settings, layout: Layout, m: Q.Msg) returns (s: State)
    requires MayRun(cfg, layout, m)
    ensures Reached(cfg, layout, s) && Solo(s.queue, m, Q.Executing(1, false)) && s == Empty().(queue := s.queue)
  {
    s := Counts(cfg, layout, m);
    var v := Q.ViewOf(s.queue, 0);
    s := Acts(cfg, layout, m, s, Q.Counted(1), Q.TryLock(0),
              Q.Goto(v, Q.Locked(1)).(lock := Q.SetLock(Q.Lease(m.job, 1, cfg.lockTtlMs)), leasedAt := 0, mark := Q.Granted));
    v := Q.ViewOf(s.queue, 0);
    s := Acts(cfg, layout, m, s, Q.Locked(1), Q.StartRun(0, true), Q.Goto(v, Q.Executing(1, false)).(mark := Q.Entered));
  }

  /** A request of the handler; the queue stays as it is. */
  lemma Requests(cfg: Q.Settings, layout: Layout, m: Q.Msg, s: State, site: W.Site, request: T.Event) returns (t: State)
    requires Reached(cfg, layout, s) && Solo(s.queue, m, Q.Executing(1, false)) && MayRun(cfg, layout, m)
    requires site in layout.sites && site.prefix == m.prefix && W.Can(s.objects, site, RunOf(s, 0, site), request)
    ensures Reached(cfg, layout, t) && t.queue == s.queue
    ensures t.objects == W.ObjectsAfter(s.objects, site, RunOf(s, 0, site), request)
    ensures RunOf(t, 0, site) == W.RunAfter(s.objects, site, RunOf(s, 0, site), request)
  {
    SoloTrusted(cfg, layout, m, Q.Executing(1, false), Next(cfg, layout, s, TableStep(0, site, request)));
    t := ReachedNext(cfg, layout, s, TableStep(0, site, request));
  }

  lemma Folds(cfg: Q.Settings, layout: Layout, m: Q.Msg, site: W.Site, mapping: string) returns (s: State)
    requires MayRun(cfg, layout, m) && site in layout.sites && site.prefix == m.prefix
    ensures Reached(cfg, layout, s) && Solo(s.queue, m, Q.Executing(1, false))
    ensures RunOf(s, 0, site).Writing? && RunOf(s, 0, site).version == 1 && RunOf(s, 0, site).done == {mapping}
    ensures W.Root(site) + CURRENT_KEY !in s.objects
  {
    s := Executes(cfg, layout, m);
    W.UnderNothing(W.Root(site));
    s := Requests(cfg, layout, m, s, site, T.Begin([], false));
    s := Requests(cfg, layout, m, s, site, T.Accept([], mapping));
  }

  /** Whatever the tables and the limit on attempts, there is a run in which a handler
      takes its job through the queue and publishes the first version of its table. */
  lemma SomeRunPublishes(cfg: Q.Settings, layout: Layout, m: Q.Msg, site: W.Site)
      returns (path: seq<State>, events: seq<Event>)
    requires MayRun(cfg, layout, m) && site in layout.sites && site.prefix == m.prefix
    ensures Behavior(cfg, layout, path, events)
    ensures W.Root(site) + CURRENT_KEY in path[|events|].objects
    ensures path[|events|].objects[W.Root(site) + CURRENT_KEY] == T.PointerDoc(1)
  {
    var s := Folds(cfg, layout, m, site, "load");
    s := Requests(cfg, layout, m, s, site, T.PutManifest("now"));
    s := Requests(cfg, layout, m, s, site, T.FlipPointer);
    path, events :| Behavior(cfg, layout, path, events) && path[|events|] == s;
  }

  /** So LeasedPublish has a run that publishes too, for a table on its own. */
  lemma SomeTablePublishes(cfg: Q.Settings, m: Q.Msg, table: string) returns (views: seq<P.State>, seen: seq<P.Event>)
    requires cfg.lockTtlMs >= 0 && cfg.maxAttempts >= 1 && cfg.gate(m.prefix) && '/' !in table
    ensures P.Behavior(cfg, m.prefix, m.pipeline, views, seen) && |views[|seen|].published| == 1
  {
    var site := W.Site(m.prefix, table);
    var layout := Layout({site}, _ => m.pipeline);
    var path, events := SomeRunPublishes(cfg, layout, m, site);
    views, seen := TableView(cfg, layout, path, events, site);
    assert Views(path[|events|], site, views[|events|]);
    var tables, requests, at := P.TableProjection(cfg, m.prefix, m.pipeline, views, seen, |seen|);
    TableTheorems.Reachable(tables, requests, |tables| - 1);
  }
}
