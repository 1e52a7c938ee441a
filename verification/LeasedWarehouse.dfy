/**
 Everything together: handlers of many jobs, each publishing and cleaning up
 several tables under its own prefix, against one bucket. In a tidy warehouse
 with trusted leases every table goes through a run of LeasedPublish, and with
 it through a run of the publish protocol, whatever handlers do elsewhere.
 */
module LeasedWarehouse {
  import Q = Queue
  import F = QueueFencing
  import L = QueueLeases
  import T = TableProtocol
  import TableSafety
  import TableTheorems
  import P = LeasedPublish
  import W = Warehouse
  import opened Text
  import opened Manifest

  /** A handler's memory of what it is doing to a table. */
  datatype Work = Work(handler: nat, site: W.Site)

  datatype State = State(queue: Q.State, objects: W.Objects, runs: map<Work, W.Run>)

  datatype Event = QueueStep(step: Q.Event) | TableStep(h: nat, site: W.Site, request: T.Event)

  /** The tables there are, and the pipeline each job prefix belongs to. */
  datatype Layout = Layout(sites: set<W.Site>, owner: string -> string)

  ghost predicate Init(s: State) {
    Q.Init(s.queue) && s.objects == map[] && s.runs == map[]
  }

  function RunOf(s: State, h: nat, site: W.Site): W.Run {
    if Work(h, site) in s.runs then s.runs[Work(h, site)] else W.Idle
  }

  predicate Inside(s: State, h: nat) {
    h in s.queue.handlers && s.queue.handlers[h].pc.Executing?
  }

  /** A handler works on the tables under its job's prefix. */
  predicate Writes(s: State, site: W.Site, h: nat) {
    Inside(s, h) && s.queue.handlers[h].msg.prefix == site.prefix
  }

  ghost predicate Enabled(cfg: Q.Settings, layout: Layout, s: State, e: Event) {
    match e
    case QueueStep(step) => Q.Enabled(cfg, s.queue, step)
    case TableStep(h, site, request) =>
      site in layout.sites && Writes(s, site, h) && W.Can(s.objects, site, RunOf(s, h, site), request)
  }

  ghost function Next(cfg: Q.Settings, layout: Layout, s: State, e: Event): State
    requires Enabled(cfg, layout, s, e)
  {
    match e
    case QueueStep(step) => s.(queue := Q.Next(cfg, s.queue, step))
    case TableStep(h, site, request) =>
      var run := RunOf(s, h, site);
      s.(objects := W.ObjectsAfter(s.objects, site, run, request),
         runs := s.runs[Work(h, site) := W.RunAfter(s.objects, site, run, request)])
  }

  ghost predicate Step(cfg: Q.Settings, layout: Layout, s: State, e: Event, t: State) {
    Enabled(cfg, layout, s, e) && t == Next(cfg, layout, s, e)
  }

  ghost predicate StepAt(cfg: Q.Settings, layout: Layout, path: seq<State>, events: seq<Event>, i: nat)
    requires |path| == |events| + 1 && i < |events|
  {
    Step(cfg, layout, path[i], events[i], path[i + 1])
  }

  /** As in LeasedPublish: leases are renewed in time, a prefix belongs to one
      pipeline, and deliveries do not overlap unless one attempt is all there is. */
  ghost predicate Trusted(cfg: Q.Settings, layout: Layout, s: State) {
    && (0 <= cfg.maxAttempts <= 1 || F.Exclusive(s.queue))
    && forall h | Inside(s, h) ::
         var handler := s.queue.handlers[h];
         handler.msg.pipeline == layout.owner(handler.msg.prefix) && L.Young(cfg, s.queue.now, handler)
  }

  ghost predicate Behavior(cfg: Q.Settings, layout: Layout, path: seq<State>, events: seq<Event>) {
    && |path| == |events| + 1
    && Init(path[0])
    && (forall i | 0 <= i < |events| :: StepAt(cfg, layout, path, events, i))
    && forall i | 0 <= i < |path| :: Trusted(cfg, layout, path[i])
  }

  // One table's part

  /** What happens, as one table sees it: others' requests pass it by. */
  function Seen(e: Event, site: W.Site): P.Event {
    match e
    case QueueStep(step) => P.QueueStep(step)
    case TableStep(h, at, request) => if at == site then P.TableStep(h, request) else P.QueueStep(Q.Tick(0))
  }

  /** `view` is the bucket with `site` as its only table. */
  ghost predicate Views(s: State, site: W.Site, view: P.State) {
    && view.queue == s.queue && view.store == W.Under(s.objects, W.Root(site))
    && (forall h | Work(h, site) in s.runs :: h in view.runs)
    && forall h | P.Writes(view, site.prefix, h) :: W.MirrorsRun(RunOf(s, h, site), P.TableOf(view, h))
  }

  lemma TrustedView(cfg: Q.Settings, layout: Layout, s: State, site: W.Site, view: P.State)
    requires Trusted(cfg, layout, s) && view.queue == s.queue
    ensures P.Trusted(cfg, site.prefix, layout.owner(site.prefix), view)
  {
    forall h | P.Writes(view, site.prefix, h)
      ensures view.queue.handlers[h].msg.pipeline == layout.owner(site.prefix)
      ensures L.Young(cfg, view.queue.now, view.queue.handlers[h])
    {
      assert Inside(s, h);
    }
  }

  /** A handler that starts to execute has done nothing to the table yet. */
  lemma QueueViews(cfg: Q.Settings, layout: Layout, s: State, step: Q.Event, t: State, site: W.Site, view: P.State)
      returns (next: P.State)
    requires Step(cfg, layout, s, QueueStep(step), t) && Views(s, site, view) && P.RunsOk(view)
    ensures P.Step(cfg, site.prefix, view, P.QueueStep(step), next) && Views(t, site, next)
  {
    next := P.Next(cfg, site.prefix, view, P.QueueStep(step));
    P.QueueEnters(cfg, view.queue, step, next.queue);
    forall h | P.Writes(next, site.prefix, h) ensures W.MirrorsRun(RunOf(t, h, site), P.TableOf(next, h)) {
      assert P.Writes(view, site.prefix, h) || h !in view.runs;
    }
  }

  lemma Pauses(cfg: Q.Settings, prefix: string, view: P.State)
    ensures P.Step(cfg, prefix, view, P.QueueStep(Q.Tick(0)), view)
  {
    assert view.queue.(now := view.queue.now + 0) == view.queue;
  }

  lemma RequestElsewhere(cfg: Q.Settings, layout: Layout, s: State, e: Event, site: W.Site)
    requires W.Tidy(layout.sites) && site in layout.sites && Enabled(cfg, layout, s, e) && e.TableStep? && e.site != site
    ensures W.Under(Next(cfg, layout, s, e).objects, W.Root(site)) == W.Under(s.objects, W.Root(site))
  {
    W.OthersUntouched(s.objects, e.site, RunOf(s, e.h, e.site), e.request, W.Root(site));
  }

  lemma RunsElsewhere(cfg: Q.Settings, layout: Layout, s: State, e: Event, site: W.Site)
    requires Enabled(cfg, layout, s, e) && e.TableStep? && e.site != site
    ensures var t := Next(cfg, layout, s, e);
            t.queue == s.queue && forall h :: RunOf(t, h, site) == RunOf(s, h, site)
                                              && (Work(h, site) in t.runs <==> Work(h, site) in s.runs)
  {
  }

  /** Requests elsewhere leave the table and its runs alone. */
  lemma ElsewhereViews(cfg: Q.Settings, layout: Layout, s: State, e: Event, t: State, site: W.Site, view: P.State)
    requires W.Tidy(layout.sites) && site in layout.sites && Step(cfg, layout, s, e, t) && Views(s, site, view)
    requires e.TableStep? && e.site != site
    ensures Views(t, site, view)
  {
    RequestElsewhere(cfg, layout, s, e, site);
    RunsElsewhere(cfg, layout, s, e, site);
  }

  /** The handler's own request, as a step of the publish protocol. */
  lemma WriterMirrors(cfg: Q.Settings, layout: Layout, s: State, e: Event, site: W.Site, view: P.State)
      returns (next: P.State)
    requires W.Tidy(layout.sites) && Enabled(cfg, layout, s, e) && e.TableStep? && e.site == site
    requires Views(s, site, view) && TableSafety.Inv(P.TableOf(view, e.h))
    ensures P.Step(cfg, site.prefix, view, P.TableStep(e.h, e.request), next)
    ensures W.Mirrors(Next(cfg, layout, s, e).objects, site, RunOf(Next(cfg, layout, s, e), e.h, site), P.TableOf(next, e.h))
  {
    assert P.Writes(view, site.prefix, e.h);
    var table := W.RequestSteps(s.objects, site, RunOf(s, e.h, site), e.request, P.TableOf(view, e.h));
    next := P.Next(cfg, site.prefix, view, P.TableStep(e.h, e.request));
  }

  /** Whatever run a writer has, the table is sound with it. */
  lemma WriterSound(cfg: Q.Settings, prefix: string, pipeline: string, path: seq<P.State>, events: seq<P.Event>, i: nat,
                    h: nat)
    requires P.Behavior(cfg, prefix, pipeline, path, events) && i < |path| && P.Writes(path[i], prefix, h)
    ensures TableSafety.Inv(P.TableOf(path[i], h))
  {
    var tables, requests, at := P.TableProjection(cfg, prefix, pipeline, path, events, i);
    TableTheorems.Reachable(tables, requests, |tables| - 1);
    var table := TableTheorems.Last(tables);
    if P.RunOf(path[i], h) != table.run {
      TableTheorems.EventKeeps(table, T.End);
      assert P.TableOf(path[i], h) == T.Next(table, T.End);
    }
  }

  lemma ViewGrows(cfg: Q.Settings, prefix: string, pipeline: string, views: seq<P.State>, seen: seq<P.Event>,
                  e: P.Event, next: P.State)
    requires P.Behavior(cfg, prefix, pipeline, views, seen) && P.Step(cfg, prefix, views[|seen|], e, next)
    requires P.Trusted(cfg, prefix, pipeline, next)
    ensures P.Behavior(cfg, prefix, pipeline, views + [next], seen + [e])
  {
    var longer, more := views + [next], seen + [e];
    forall i | 0 <= i < |more| ensures P.StepAt(cfg, prefix, longer, more, i) {
      if i < |seen| { assert P.StepAt(cfg, prefix, views, seen, i); }
    }
  }

  ghost predicate ViewedAt(path: seq<State>, site: W.Site, views: seq<P.State>, k: nat)
    requires k < |path| && k < |views|
  {
    Views(path[k], site, views[k])
  }

  ghost predicate ViewedTo(cfg: Q.Settings, layout: Layout, path: seq<State>, events: seq<Event>, site: W.Site, i: nat,
                           views: seq<P.State>, seen: seq<P.Event>)
    requires i < |path| == |events| + 1
  {
    && P.Behavior(cfg, site.prefix, layout.owner(site.prefix), views, seen) && |seen| == i
    && (forall k | 0 <= k < i :: seen[k] == Seen(events[k], site))
    && forall k | 0 <= k <= i :: ViewedAt(path, site, views, k)
  }

  lemma ViewedMore(cfg: Q.Settings, layout: Layout, path: seq<State>, events: seq<Event>, site: W.Site, i: nat,
                   views: seq<P.State>, seen: seq<P.Event>, next: P.State)
    requires i < |events| && |path| == |events| + 1 && ViewedTo(cfg, layout, path, events, site, i, views, seen)
    requires P.Behavior(cfg, site.prefix, layout.owner(site.prefix), views + [next], seen + [Seen(events[i], site)])
    requires Views(path[i + 1], site, next)
    ensures ViewedTo(cfg, layout, path, events, site, i + 1, views + [next], seen + [Seen(events[i], site)])
  {
    var longer := views + [next];
    forall k | 0 <= k <= i + 1 ensures ViewedAt(path, site, longer, k) {
      if k <= i { assert ViewedAt(path, site, views, k); }
    }
  }

  /** The event as one table sees it, and the bucket's next state as it sees that
      but for the writers. */
  lemma NextView(cfg: Q.Settings, layout: Layout, path: seq<State>, events: seq<Event>, site: W.Site, i: nat,
                 views: seq<P.State>, seen: seq<P.Event>) returns (next: P.State)
    requires W.Tidy(layout.sites) && site in layout.sites && Behavior(cfg, layout, path, events) && i < |events|
    requires ViewedTo(cfg, layout, path, events, site, i, views, seen)
    ensures P.Step(cfg, site.prefix, views[i], Seen(events[i], site), next) && next.queue == path[i + 1].queue
    ensures if events[i].TableStep? && events[i].site == site
            then W.Mirrors(path[i + 1].objects, site, RunOf(path[i + 1], events[i].h, site), P.TableOf(next, events[i].h))
            else Views(path[i + 1], site, next)
  {
    assert StepAt(cfg, layout, path, events, i) && ViewedAt(path, site, views, i);
    var e := events[i];
    if e.QueueStep? {
      RunsAreOk(cfg, site.prefix, layout.owner(site.prefix), views, seen, i);
      next := QueueViews(cfg, layout, path[i], e.step, path[i + 1], site, views[i]);
    } else if e.site != site {
      ElsewhereViews(cfg, layout, path[i], e, path[i + 1], site, views[i]);
      Pauses(cfg, site.prefix, views[i]);
      next := views[i];
    } else {
      WriterSound(cfg, site.prefix, layout.owner(site.prefix), views, seen, i, e.h);
      next := WriterMirrors(cfg, layout, path[i], e, site, views[i]);
    }
  }

  lemma RunsAreOk(cfg: Q.Settings, prefix: string, pipeline: string, path: seq<P.State>, events: seq<P.Event>, i: nat)
    requires P.Behavior(cfg, prefix, pipeline, path, events) && i < |path|
    ensures P.RunsOk(path[i])
  {
    var tables, requests, at := P.TableProjection(cfg, prefix, pipeline, path, events, i);
  }

  /** After a writer's request it is the only writer there is. */
  lemma WriterViews(cfg: Q.Settings, layout: Layout, s: State, e: Event, t: State, site: W.Site, view: P.State, next: P.State)
    requires Step(cfg, layout, s, e, t) && e.TableStep? && e.site == site && Views(s, site, view)
    requires P.Step(cfg, site.prefix, view, P.TableStep(e.h, e.request), next)
    requires W.Mirrors(t.objects, site, RunOf(t, e.h, site), P.TableOf(next, e.h))
    requires forall k | P.Writes(next, site.prefix, k) :: k == e.h
    ensures Views(t, site, next)
  {
  }

  lemma {:induction false} BuildViews(cfg: Q.Settings, layout: Layout, path: seq<State>, events: seq<Event>, site: W.Site,
                                     i: nat) returns (views: seq<P.State>, seen: seq<P.Event>)
    requires W.Tidy(layout.sites) && site in layout.sites && Behavior(cfg, layout, path, events) && i < |path|
    ensures ViewedTo(cfg, layout, path, events, site, i, views, seen)
  {
    if i == 0 {
      views, seen := FirstView(cfg, layout, path, events, site);
    } else {
      views, seen := BuildViews(cfg, layout, path, events, site, i - 1);
      views, seen := OneMoreView(cfg, layout, path, events, site, i - 1, views, seen);
    }
  }

  lemma FirstView(cfg: Q.Settings, layout: Layout, path: seq<State>, events: seq<Event>, site: W.Site)
      returns (views: seq<P.State>, seen: seq<P.Event>)
    requires Behavior(cfg, layout, path, events)
    ensures ViewedTo(cfg, layout, path, events, site, 0, views, seen)
  {
    var first := P.State(path[0].queue, map[], [], map[]);
    W.UnderNothing(W.Root(site));
    TrustedView(cfg, layout, path[0], site, first);
    views, seen := [first], [];
    assert ViewedAt(path, site, views, 0);
  }

  lemma OneMoreView(cfg: Q.Settings, layout: Layout, path: seq<State>, events: seq<Event>, site: W.Site, i: nat,
                    views: seq<P.State>, seen: seq<P.Event>) returns (views': seq<P.State>, seen': seq<P.Event>)
    requires W.Tidy(layout.sites) && site in layout.sites && Behavior(cfg, layout, path, events) && i < |events|
    requires ViewedTo(cfg, layout, path, events, site, i, views, seen)
    ensures ViewedTo(cfg, layout, path, events, site, i + 1, views', seen')
  {
    var prefix, pipeline, e := site.prefix, layout.owner(site.prefix), events[i];
    var next := NextView(cfg, layout, path, events, site, i, views, seen);
    TrustedView(cfg, layout, path[i + 1], site, next);
    ViewGrows(cfg, prefix, pipeline, views, seen, Seen(e, site), next);
    views', seen' := views + [next], seen + [Seen(e, site)];
    if e.TableStep? && e.site == site {
      assert StepAt(cfg, layout, path, events, i) && ViewedAt(path, site, views, i);
      forall k | P.Writes(next, prefix, k) ensures k == e.h {
        P.OneWriter(cfg, prefix, pipeline, views', seen', i + 1, k, e.h);
      }
      WriterViews(cfg, layout, path[i], e, path[i + 1], site, views[i], next);
    }
    ViewedMore(cfg, layout, path, events, site, i, views, seen, next);
  }

  /** Refinement: in a tidy warehouse a table, seen on its own, goes through a run
      of LeasedPublish, event by event. */
  lemma TableView(cfg: Q.Settings, layout: Layout, path: seq<State>, events: seq<Event>, site: W.Site)
      returns (views: seq<P.State>, seen: seq<P.Event>)
    requires W.Tidy(layout.sites) && site in layout.sites && Behavior(cfg, layout, path, events)
    ensures P.Behavior(cfg, site.prefix, layout.owner(site.prefix), views, seen) && |views| == |path|
    ensures forall i | 0 <= i < |events| :: seen[i] == Seen(events[i], site)
    ensures forall i | 0 <= i < |path| :: Views(path[i], site, views[i])
  {
    views, seen := BuildViews(cfg, layout, path, events, site, |events|);
    forall i | 0 <= i < |path| ensures Views(path[i], site, views[i]) { assert ViewedAt(path, site, views, i); }
  }

  // The theorems

  function CurrentOf(s: State, site: W.Site): Result<TableManifest, string> {
    T.ReadCurrent(W.Under(s.objects, W.Root(site)))
  }

  /** A writer's request, with its run as the table's own view has it. */
  lemma WriterSeen(cfg: Q.Settings, layout: Layout, s: State, e: Event, site: W.Site, view: P.State)
    requires Enabled(cfg, layout, s, e) && e.TableStep? && e.site == site && Views(s, site, view)
    ensures W.MirrorsRun(RunOf(s, e.h, site), P.TableOf(view, e.h))
  {
    assert P.Writes(view, site.prefix, e.h);
  }

  lemma RequestSeen(cfg: Q.Settings, layout: Layout, path: seq<State>, events: seq<Event>, site: W.Site, i: nat,
                    view: P.State)
    requires Behavior(cfg, layout, path, events) && i < |events| && Views(path[i], site, view)
    requires Seen(events[i], site).TableStep?
    ensures events[i] == TableStep(Seen(events[i], site).h, site, Seen(events[i], site).request)
    ensures W.MirrorsRun(RunOf(path[i], events[i].h, site), P.TableOf(view, events[i].h))
  {
    assert StepAt(cfg, layout, path, events, i);
    WriterSeen(cfg, layout, path[i], events[i], site, view);
  }

  /** In every state the table has never published, or its current version can be read. */
  lemma LeasedTableReadable(cfg: Q.Settings, layout: Layout, path: seq<State>, events: seq<Event>, site: W.Site, i: nat)
    requires W.Tidy(layout.sites) && site in layout.sites && Behavior(cfg, layout, path, events) && i < |path|
    ensures CurrentOf(path[i], site).Ok?
    ensures W.Root(site) + CURRENT_KEY !in path[i].objects <==> CurrentOf(path[i], site).value.version == 0
  {
    var views, seen := TableView(cfg, layout, path, events, site);
    P.LeasedIsolation(cfg, site.prefix, layout.owner(site.prefix), views, seen, i);
  }

  /** Each of the last ten versions of a table reads back as the handler that
      built it left it, whatever the handlers of all tables did since. */
  lemma LeasedTableTimeTravel(cfg: Q.Settings, layout: Layout, path: seq<State>, events: seq<Event>, site: W.Site, i: nat,
                              v: nat) returns (j: nat)
    requires W.Tidy(layout.sites) && site in layout.sites && Behavior(cfg, layout, path, events) && i < |path|
    requires CurrentOf(path[i], site).Ok? && TableSafety.InWindow(v, CurrentOf(path[i], site).value.version)
    ensures j < i && events[j].TableStep? && events[j].site == site && events[j].request.PutManifest?
    ensures var run := RunOf(path[j], events[j].h, site);
            && run.Writing? && run.version == v
            && TableTheorems.SameAsBuilt(W.Under(path[j].objects, W.Root(site)), run.files,
                                         W.Under(path[i].objects, W.Root(site)), v)
  {
    var prefix, pipeline := site.prefix, layout.owner(site.prefix);
    var views, seen := TableView(cfg, layout, path, events, site);
    P.LeasedIsolation(cfg, prefix, pipeline, views, seen, i);
    j := P.LeasedTimeTravel(cfg, prefix, pipeline, views, seen, i, v);
    RequestSeen(cfg, layout, path, events, site, j, views[j]);
  }

  /** No version of a table is ever published by two runs. */
  lemma NoTableVersionTwice(cfg: Q.Settings, layout: Layout, path: seq<State>, events: seq<Event>, site: W.Site,
                            i: nat, k: nat)
    requires W.Tidy(layout.sites) && site in layout.sites && Behavior(cfg, layout, path, events) && i < k < |events|
    requires events[i].TableStep? && events[i].site == site && events[i].request.FlipPointer?
    requires events[k].TableStep? && events[k].site == site && events[k].request.FlipPointer?
    ensures var a, b := RunOf(path[i], events[i].h, site), RunOf(path[k], events[k].h, site);
            a.ManifestWritten? && b.ManifestWritten? && a.manifest.version < b.manifest.version
  {
    var views, seen := TableView(cfg, layout, path, events, site);
    RequestSeen(cfg, layout, path, events, site, i, views[i]);
    RequestSeen(cfg, layout, path, events, site, k, views[k]);
    P.NoVersionTwice(cfg, site.prefix, layout.owner(site.prefix), views, seen, i, k);
  }
}
